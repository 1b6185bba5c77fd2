/**
 One user's presence key as a timed machine: SET with a 15 s time to live, a heartbeat per
 connection every 5 s, and DEL by any connection's cleanup. Time is in milliseconds. Punctual
 ticks: time does not pass a live heartbeat's next tick.
 */
module Presence {

  const TTL: int := 15000
  const INTERVAL: int := 5000

  datatype Key = Missing | Written(gw: nat, at: int)

  /** One StartHeartbeat goroutine; `fails` counts failed writes since `lastOk`, its last good one. */
  datatype Beat = Beat(gw: nat, due: int, live: bool, lastOk: LastOk, fails: nat)

  datatype LastOk = Never | At(time: int)

  /** A write that reached Redis; `from` is history: the connection that made it. */
  datatype Write = Write(gw: nat, at: int, from: nat)

  datatype Presence = Presence(now: int, key: Key, beats: seq<Beat>, writes: seq<Write>)

  datatype Action =
    | Elapse(d: int)
    | Connect(gw: nat, ok: bool)
    | Tick(i: nat, ok: bool)
    | Stop(i: nat)
    | Delete

  predicate Enabled(p: Presence, a: Action) {
    match a
    case Elapse(d) => d > 0 && forall i :: 0 <= i < |p.beats| && p.beats[i].live ==> p.now + d <= p.beats[i].due
    case Connect(_, _) => true
    case Tick(i, _) => i < |p.beats| && p.beats[i].live && p.now == p.beats[i].due
    case Stop(i) => i < |p.beats| && p.beats[i].live
    case Delete => true
  }

  /** RegisterUser: SET presence:<user> gw EX 15. */
  function AfterSet(p: Presence, gw: nat, from: nat, ok: bool): Presence {
    if ok then p.(key := Written(gw, p.now), writes := p.writes + [Write(gw, p.now, from)]) else p
  }

  function Next(p: Presence, a: Action): Presence
    requires Enabled(p, a)
  {
    match a
    case Elapse(d) => p.(now := p.now + d)
    case Connect(gw, ok) =>
      AfterSet(p, gw, |p.beats|, ok).(beats := p.beats + [Beat(gw, p.now + INTERVAL, true, if ok then At(p.now) else Never, 0)])
    case Tick(i, ok) =>
      var b := p.beats[i];
      var c := if ok then b.(due := b.due + INTERVAL, lastOk := At(p.now), fails := 0)
               else b.(due := b.due + INTERVAL, fails := b.fails + 1);
      AfterSet(p, b.gw, i, ok).(beats := p.beats[i := c])
    case Stop(i) => p.(beats := p.beats[i := p.beats[i].(live := false)])
    case Delete => p.(key := Missing)
  }

  predicate Present(p: Presence) {
    p.key.Written? && p.now < p.key.at + TTL
  }

  ghost predicate Path(p: Presence, acts: seq<Action>, q: Presence)
    decreases |acts|
  {
    if acts == [] then q == p else Enabled(p, acts[0]) && Path(Next(p, acts[0]), acts[1..], q)
  }

  const START := Presence(0, Missing, [], [])

  // ----- what a present key says -----------------------------------------------------------

  ghost predicate Inv(p: Presence) {
    && (p.key.Written? ==> p.writes != [] && p.writes[|p.writes| - 1].gw == p.key.gw && p.writes[|p.writes| - 1].at == p.key.at)
    && (forall i :: 0 <= i < |p.writes| ==>
          p.writes[i].from < |p.beats| && p.beats[p.writes[i].from].gw == p.writes[i].gw)
    && (forall i :: 0 <= i < |p.writes| ==> p.writes[i].at <= p.now)
    && (forall i :: 0 <= i < |p.beats| && p.beats[i].live ==> p.now <= p.beats[i].due <= p.now + INTERVAL)
    && (forall i :: 0 <= i < |p.beats| && p.beats[i].lastOk.At? && p.beats[i].live ==>
          p.beats[i].due == p.beats[i].lastOk.time + INTERVAL * (p.beats[i].fails + 1))
  }

  lemma StepInv(p: Presence, a: Action)
    requires Inv(p) && Enabled(p, a)
    ensures Inv(Next(p, a))
  {
  }

  /** A connection's gateway never changes, and what was written stays written. */
  lemma {:induction false} GatewaysStay(p: Presence, acts: seq<Action>, q: Presence)
    requires Path(p, acts, q)
    ensures |p.beats| <= |q.beats| && p.writes <= q.writes
    ensures forall i :: 0 <= i < |p.beats| ==> q.beats[i].gw == p.beats[i].gw
    decreases |acts|
  {
    if acts == [] {
    } else {
      GatewaysStay(Next(p, acts[0]), acts[1..], q);
    }
  }

  lemma {:induction false} PathInv(p: Presence, acts: seq<Action>, q: Presence)
    requires Inv(p) && Path(p, acts, q)
    ensures Inv(q)
    decreases |acts|
  {
    if acts == [] {
    } else {
      StepInv(p, acts[0]);
      PathInv(Next(p, acts[0]), acts[1..], q);
    }
  }

  /** A present key names the gateway of the connection that wrote last, less than 15 s ago. */
  lemma PresentIsRecent(acts: seq<Action>, p: Presence)
    requires Path(START, acts, p) && Present(p)
    ensures p.writes != []
    ensures var w := p.writes[|p.writes| - 1];
      && w.from < |p.beats| && p.beats[w.from].gw == w.gw == p.key.gw
      && w.at == p.key.at && 0 <= p.now - w.at < 15000
  {
    PathInv(START, acts, p);
  }

  /** When all of a user's connections are at one gateway, a present key names it. */
  lemma OneGateway(acts: seq<Action>, p: Presence, g: nat)
    requires Path(START, acts, p) && Present(p) && forall i :: 0 <= i < |p.beats| ==> p.beats[i].gw == g
    ensures p.key.gw == g
  {
    PresentIsRecent(acts, p);
  }

  /** No step deletes the key or writes it. */
  predicate Untouched(acts: seq<Action>) {
    forall i :: 0 <= i < |acts| ==>
      !acts[i].Delete? && !(acts[i].Connect? && acts[i].ok) && !(acts[i].Tick? && acts[i].ok)
  }

  lemma {:induction false} KeyStays(p: Presence, acts: seq<Action>, q: Presence)
    requires Path(p, acts, q) && Untouched(acts)
    ensures q.key == p.key
    decreases |acts|
  {
    if acts == [] {
    } else {
      assert forall i :: 0 <= i < |acts| - 1 ==> acts[1..][i] == acts[i + 1];
      KeyStays(Next(p, acts[0]), acts[1..], q);
    }
  }

  /**
   A heartbeat that succeeds makes its connection's own gateway findable, and while nobody else
   writes or deletes the key, for exactly 15 s.
   */
  lemma WriteLasts(p: Presence, i: nat, acts: seq<Action>, q: Presence)
    requires Enabled(p, Tick(i, true)) && Path(Next(p, Tick(i, true)), acts, q) && Untouched(acts)
    ensures Present(q) <==> q.now < p.now + 15000
    ensures Present(q) ==> q.key.gw == p.beats[i].gw
  {
    KeyStays(Next(p, Tick(i, true)), acts, q);
  }

  // ----- failed heartbeats -----------------------------------------------------------------

  /** Heartbeat i lives, has written the key, and at most k writes have failed since. */
  ghost predicate Steady(p: Presence, i: nat, k: nat) {
    && Inv(p) && i < |p.beats| && p.beats[i].live && p.beats[i].lastOk.At? && p.beats[i].fails <= k
    && p.key.Written? && p.key.at >= p.beats[i].lastOk.time
  }

  /** Nobody deletes the key, heartbeat i is not stopped, and never more than k of its writes fail in a row. */
  ghost predicate Tolerable(p: Presence, acts: seq<Action>, i: nat, k: nat)
    decreases |acts|
  {
    acts == [] ||
    (&& Enabled(p, acts[0]) && !acts[0].Delete? && acts[0] != Stop(i)
     && i < |Next(p, acts[0]).beats| && Next(p, acts[0]).beats[i].fails <= k
     && Tolerable(Next(p, acts[0]), acts[1..], i, k))
  }

  lemma {:induction false} SteadyStays(p: Presence, acts: seq<Action>, q: Presence, i: nat, k: nat)
    requires Steady(p, i, k) && Path(p, acts, q) && Tolerable(p, acts, i, k)
    ensures Steady(q, i, k)
    decreases |acts|
  {
    if acts == [] {
    } else {
      StepInv(p, acts[0]);
      SteadyStays(Next(p, acts[0]), acts[1..], q, i, k);
    }
  }

  ghost predicate NeverLapses(k: nat) {
    forall p, acts, q, i: nat :: Steady(p, i, k) && Path(p, acts, q) && Tolerable(p, acts, i, k) ==> Present(q)
  }

  /** The key survives k failed heartbeats in a row, in every run, exactly when 5(k + 1) < 15: for k up to 1. */
  lemma HeartbeatTolerance(k: nat)
    ensures NeverLapses(k) <==> 5000 * (k + 1) < 15000
  {
    if INTERVAL * (k + 1) < TTL {
      forall p, acts, q, i: nat | Steady(p, i, k) && Path(p, acts, q) && Tolerable(p, acts, i, k) ensures Present(q) {
        SteadyStays(p, acts, q, i, k);
        assert INTERVAL * (q.beats[i].fails + 1) <= INTERVAL * (k + 1);
      }
    } else {
      var p, acts, q := Lapse(k);
      assert Steady(p, 0, k) && !Present(q);
    }
  }

  /** Two failures in a row let the key expire just before the third tick. */
  lemma Lapse(k: nat) returns (p: Presence, acts: seq<Action>, q: Presence)
    requires k >= 2
    ensures Steady(p, 0, k) && Path(p, acts, q) && Tolerable(p, acts, 0, k) && !Present(q)
  {
    p := Next(START, Connect(0, true));
    StepInv(START, Connect(0, true));
    var p1 := Next(p, Elapse(INTERVAL));
    var p2 := Next(p1, Tick(0, false));
    var p3 := Next(p2, Elapse(INTERVAL));
    var p4 := Next(p3, Tick(0, false));
    q := Next(p4, Elapse(INTERVAL));
    var a5: seq<Action> := [Elapse(INTERVAL)];
    var a4 := [Tick(0, false)] + a5;
    var a3 := [Elapse(INTERVAL)] + a4;
    var a2 := [Tick(0, false)] + a3;
    acts := [Elapse(INTERVAL)] + a2;
    assert a5[1..] == [] && a4[1..] == a5 && a3[1..] == a4 && a2[1..] == a3 && acts[1..] == a2;
    assert Path(p4, a5, q) && Tolerable(p4, a5, 0, k);
    assert Path(p3, a4, q) && Tolerable(p3, a4, 0, k);
    assert Path(p2, a3, q) && Tolerable(p2, a3, 0, k);
    assert Path(p1, a2, q) && Tolerable(p1, a2, 0, k);
  }

  // ----- recovery from another connection's delete -----------------------------------------

  /**
   Nobody deletes the key again and heartbeat i is not stopped; its next tick, if it comes, succeeds,
   and from then on never more than k of its writes fail in a row.
   */
  ghost predicate Recovers(p: Presence, acts: seq<Action>, i: nat, k: nat)
    decreases |acts|
  {
    acts == [] ||
    (&& Enabled(p, acts[0]) && !acts[0].Delete? && acts[0] != Stop(i)
     && if acts[0].Tick? && acts[0].i == i then acts[0].ok && Tolerable(Next(p, acts[0]), acts[1..], i, k)
        else Recovers(Next(p, acts[0]), acts[1..], i, k))
  }

  /** Before its next tick nothing is known; from that good write on, heartbeat i keeps the key. */
  lemma {:induction false} TickedOrWaiting(p: Presence, acts: seq<Action>, q: Presence, i: nat, k: nat)
    requires Inv(p) && i < |p.beats| && p.beats[i].live && Path(p, acts, q) && Recovers(p, acts, i, k)
    ensures Inv(q) && i < |q.beats| && q.beats[i].live
    ensures q.beats[i].due == p.beats[i].due || Steady(q, i, k)
    decreases |acts|
  {
    if acts == [] {
    } else {
      var next := Next(p, acts[0]);
      StepInv(p, acts[0]);
      if acts[0].Tick? && acts[0].i == i {
        SteadyStays(next, acts[1..], q, i, k);
      } else {
        TickedOrWaiting(next, acts[1..], q, i, k);
      }
    }
  }

  /**
   Another connection's DEL, whatever i's earlier writes did, is undone by i's next tick if that
   succeeds, at most 5 s later, and stays undone through every streak of failures the TTL tolerates.
   */
  lemma RestoredAfterDelete(p: Presence, acts: seq<Action>, q: Presence, i: nat, k: nat)
    requires Inv(p) && i < |p.beats| && p.beats[i].live && 5000 * (k + 1) < 15000
    requires Path(Next(p, Delete), acts, q) && Recovers(Next(p, Delete), acts, i, k)
    ensures q.now > p.now + 5000 ==> Present(q)
    ensures i < |q.beats| && q.beats[i].due > p.beats[i].due ==> Present(q)
  {
    StepInv(p, Delete);
    TickedOrWaiting(Next(p, Delete), acts, q, i, k);
    assert INTERVAL * (q.beats[i].fails + 1) <= INTERVAL * (k + 1) || q.beats[i].fails > k;
  }

  /** How many writes have failed in a row after n ticks, `start` of them before the first. */
  function Streak(outcomes: nat -> bool, n: nat, start: nat): nat {
    if n == 0 then start else if outcomes(n - 1) then 0 else Streak(outcomes, n - 1, start) + 1
  }

  /** The longest such streak during the first n ticks. */
  function WorstStreak(outcomes: nat -> bool, n: nat, start: nat): nat {
    if n == 0 then start
    else
      var before, now := WorstStreak(outcomes, n - 1, start), Streak(outcomes, n, start);
      if now > before then now else before
  }

  /** The writes connection i made, oldest first. */
  function OwnWrites(writes: seq<Write>, i: nat): seq<Write> {
    if writes == [] then []
    else
      var last := writes[|writes| - 1];
      OwnWrites(writes[..|writes| - 1], i) + (if last.from == i then [last] else [])
  }

  lemma OwnWritesAppend(writes: seq<Write>, w: Write, i: nat)
    ensures OwnWrites(writes + [w], i) == OwnWrites(writes, i) + (if w.from == i then [w] else [])
  {
    assert (writes + [w])[..|writes|] == writes;
  }

  /** One write of gateway gw for each good one of n ticks, 5 s apart from `due` on. */
  function GoodWrites(outcomes: nat -> bool, n: nat, i: nat, gw: nat, due: int): seq<Write> {
    if n == 0 then []
    else
      GoodWrites(outcomes, n - 1, i, gw, due)
      + (if outcomes(n - 1) then [Write(gw, due + 5000 * (n - 1), i)] else [])
  }

  /** Steps of time and of other connections. */
  predicate Leaves(a: Action, i: nat) {
    !a.Delete? && a != Stop(i) && !(a.Tick? && a.i == i)
  }

  lemma LeavesBeat(p: Presence, a: Action, i: nat)
    requires Inv(p) && Enabled(p, a) && Leaves(a, i) && i < |p.beats| && p.beats[i].live
    ensures LeftAlone(p, Next(p, a), i)
  {
    var q := Next(p, a);
    StepInv(p, a);
    if |q.writes| > |p.writes| { OwnWritesAppend(p.writes, q.writes[|p.writes|], i); }
  }

  /** Connection i's own tick: its next one is 5 s later, and a good one writes its own gateway. */
  ghost predicate TicksOnce(p: Presence, q: Presence, i: nat, ok: bool)
    requires i < |p.beats|
  {
    && i < |q.beats| && q.beats[i].live && q.beats[i].gw == p.beats[i].gw && q.now < q.beats[i].due
    && q.beats[i].due == p.beats[i].due + 5000
    && q.beats[i].fails == (if ok then 0 else p.beats[i].fails + 1)
    && p.writes <= q.writes
    && OwnWrites(q.writes, i)
       == OwnWrites(p.writes, i) + (if ok then [Write(p.beats[i].gw, p.beats[i].due, i)] else [])
    && (forall k: nat :: Steady(p, i, k) ==> Steady(q, i, if q.beats[i].fails > k then q.beats[i].fails else k))
  }

  /** Heartbeat i since state p, after so many ticks. */
  ghost predicate Beating(p: Presence, q: Presence, i: nat, outcomes: nat -> bool, ticks: nat) {
    && i < |p.beats| && i < |q.beats| && q.beats[i].live
    && q.beats[i].gw == p.beats[i].gw && q.beats[i].due == p.beats[i].due + 5000 * ticks
    && p.writes <= q.writes
    && OwnWrites(q.writes, i)
       == OwnWrites(p.writes, i) + GoodWrites(outcomes, ticks, i, p.beats[i].gw, p.beats[i].due)
    && var start := p.beats[i].fails;
       && q.beats[i].fails == Streak(outcomes, ticks, start) <= WorstStreak(outcomes, ticks, start)
       && (Steady(p, i, start) ==> Steady(q, i, WorstStreak(outcomes, ticks, start)))
  }

  /** Nothing that connection i's heartbeat relies on has changed. */
  ghost predicate LeftAlone(p: Presence, q: Presence, i: nat)
    requires i < |p.beats|
  {
    && i < |q.beats| && q.beats[i] == p.beats[i]
    && p.writes <= q.writes && OwnWrites(q.writes, i) == OwnWrites(p.writes, i)
    && forall k: nat :: Steady(p, i, k) ==> Steady(q, i, k)
  }

  lemma StillBeating(p: Presence, q: Presence, r: Presence, i: nat, outcomes: nat -> bool, ticks: nat)
    requires Beating(p, q, i, outcomes, ticks) && LeftAlone(q, r, i)
    ensures Beating(p, r, i, outcomes, ticks)
  {
  }

  /** What the streaks of failures allow. */
  lemma BeatingPresent(p: Presence, q: Presence, i: nat, outcomes: nat -> bool, ticks: nat)
    requires Beating(p, q, i, outcomes, ticks) && Steady(p, i, p.beats[i].fails)
    requires 5000 * (WorstStreak(outcomes, ticks, p.beats[i].fails) + 1) < 15000
    ensures Present(q)
  {
    assert 5000 * (q.beats[i].fails + 1) <= 5000 * (WorstStreak(outcomes, ticks, p.beats[i].fails) + 1);
  }

  lemma OneMoreTick(p: Presence, q: Presence, r: Presence, i: nat, outcomes: nat -> bool, ticks: nat)
    requires Beating(p, q, i, outcomes, ticks) && TicksOnce(q, r, i, outcomes(ticks))
    ensures Beating(p, r, i, outcomes, ticks + 1)
  {
  }

  // ----- the store -------------------------------------------------------------------------

  datatype Lookup = Nil | Found(gw: nat)

  class Registry {
    var now: int
    var key: Key
    var beats: seq<Beat>
    ghost var writes: seq<Write>

    ghost function P(): Presence
      reads this
    {
      Presence(now, key, beats, writes)
    }

    ghost predicate Valid()
      reads this
    {
      Inv(P())
    }

    constructor ()
      ensures Valid() && P() == START
    {
      now, key, beats, writes := 0, Missing, [], [];
    }

    /** SET with the TTL, for the connection numbered `from`. */
    method RegisterUser(gatewayAddr: nat, from: nat, ok: bool)
      modifies this`key, this`writes
      ensures key == if ok then Written(gatewayAddr, now) else old(key)
      ensures writes == old(writes) + (if ok then [Write(gatewayAddr, now, from)] else [])
    {
      if ok {
        key := Written(gatewayAddr, now);
        writes := writes + [Write(gatewayAddr, now, from)];
      }
    }

    method UnregisterUser(ok: bool)
      requires Valid()
      modifies this`key
      ensures Valid() && P() == if ok then Next(old(P()), Delete) else old(P())
      ensures ok ==> !Present(P())
    {
      if ok {
        key := Missing;
      }
    }

    method GetUserGateway() returns (r: Lookup)
      requires Valid()
      ensures r.Found? <==> Present(P())
      ensures r.Found? ==> writes != [] && writes[|writes| - 1].gw == r.gw && now < writes[|writes| - 1].at + 15000
      ensures r.Found? ==> exists i :: 0 <= i < |beats| && beats[i].gw == r.gw
    {
      r := match key
           case Missing => Nil
           case Written(gw, at) => if now < at + TTL then Found(gw) else Nil;
    }

    /** Registration at connect: the first SET, then the heartbeat. */
    method Join(gatewayAddr: nat, ok: bool) returns (i: nat)
      requires Valid()
      modifies this
      ensures Valid() && P() == Next(old(P()), Connect(gatewayAddr, ok)) && i == |old(beats)|
      ensures i < |beats| && beats[i].gw == gatewayAddr && beats[i].live && beats[i].due == now + 5000
      ensures ok ==> Present(P()) && key.gw == gatewayAddr
    {
      i := |beats|;
      StepInv(P(), Connect(gatewayAddr, ok));
      RegisterUser(gatewayAddr, i, ok);
      beats := beats + [Beat(gatewayAddr, now + INTERVAL, true, if ok then At(now) else Never, 0)];
    }

    /** Time and other connections; nobody deletes the key, and heartbeat i is left to its own loop. */
    method Interfere(acts: seq<Action>, i: nat)
      requires Valid() && i < |beats| && beats[i].live
      modifies this
      ensures Valid() && LeftAlone(old(P()), P(), i)
    {
      for n := 0 to |acts|
        invariant Valid() && LeftAlone(old(P()), P(), i)
      {
        if Enabled(Presence(now, key, beats, []), acts[n]) && Leaves(acts[n], i) {
          LeavesBeat(P(), acts[n], i);
          OtherStep(acts[n], i);
        }
      }
    }

    method OtherStep(a: Action, i: nat)
      requires Valid() && i < |beats| && beats[i].live && Enabled(P(), a) && Leaves(a, i)
      modifies this
      ensures Valid() && P() == Next(old(P()), a)
    {
      StepInv(P(), a);
      match a {
        case Elapse(d) => now := now + d;
        case Tick(j, ok) => TickOnce(j, ok);
        case Stop(j) => beats := beats[j := beats[j].(live := false)];
        case Connect(gw, ok) => var _ := Join(gw, ok);
      }
    }

    method TickOnce(i: nat, ok: bool)
      requires Valid() && i < |beats| && beats[i].live && now == beats[i].due
      modifies this
      ensures Valid() && P() == Next(old(P()), Tick(i, ok))
      ensures i < |beats| && beats[i].gw == old(beats[i].gw) && beats[i].due == old(beats[i].due) + 5000
      ensures ok ==> Present(P()) && key.gw == old(beats[i].gw)
    {
      StepInv(P(), Tick(i, ok));
      var b := beats[i];
      beats := beats[i := if ok then b.(due := b.due + INTERVAL, lastOk := At(now), fails := 0)
                          else b.(due := b.due + INTERVAL, fails := b.fails + 1)];
      RegisterUser(b.gw, i, ok);
    }

    /** A tick of the loop itself: it writes its own connection's gateway, and a failure keeps the key. */
    method OwnTick(i: nat, ok: bool)
      requires Valid() && i < |beats| && beats[i].live && now == beats[i].due
      modifies this
      ensures Valid() && TicksOnce(old(P()), P(), i, ok)
    {
      OwnWritesAppend(writes, Write(beats[i].gw, beats[i].due, i), i);
      TickOnce(i, ok);
    }

    /** One turn of the loop that began in state p. */
    method Round(ghost p: Presence, i: nat, acts: seq<Action>, outcomes: nat -> bool, ticks: nat) returns (more: nat)
      requires Valid() && Beating(p, P(), i, outcomes, ticks)
      modifies this
      ensures Valid() && ticks <= more <= ticks + 1 && Beating(p, P(), i, outcomes, more)
      ensures now < beats[i].due
    {
      ghost var earlier := P();
      Interfere(acts, i);
      StillBeating(p, earlier, P(), i, outcomes, ticks);
      more := ticks;
      if now == beats[i].due {
        ghost var before := P();
        OwnTick(i, outcomes(ticks));
        OneMoreTick(p, before, P(), i, outcomes, ticks);
        more := ticks + 1;
      }
    }

    /** The loop proper: others' steps, and a tick whenever one is due. */
    method Run(i: nat, rounds: seq<seq<Action>>, outcomes: nat -> bool) returns (ticks: nat)
      requires Valid() && i < |beats| && beats[i].live
      modifies this
      ensures Valid() && ticks <= |rounds| && Beating(old(P()), P(), i, outcomes, ticks)
      ensures rounds != [] ==> now < beats[i].due
    {
      ticks := 0;
      for n := 0 to |rounds|
        invariant ticks <= n && Valid() && (n > 0 ==> i < |beats| && now < beats[i].due)
        invariant Beating(old(P()), P(), i, outcomes, ticks)
      {
        ticks := Round(old(P()), i, rounds[n], outcomes, ticks);
      }
    }

    /**
     The ticker loop, until it is stopped. It misses no tick that is due, and each good one writes the
     connection's own gateway. While nobody deletes the key, a key written before is present at the
     end if no streak of failed writes was too long.
     */
    method Heartbeat(i: nat, rounds: seq<seq<Action>>, outcomes: nat -> bool) returns (ticks: nat)
      requires Valid() && i < |beats| && beats[i].live
      modifies this
      ensures Valid() && i < |beats| && !beats[i].live
      ensures ticks <= |rounds| && beats[i].due == old(beats[i].due) + 5000 * ticks
      ensures beats[i].gw == old(beats[i].gw) && old(writes) <= writes
      ensures OwnWrites(writes, i)
           == OwnWrites(old(writes), i) + GoodWrites(outcomes, ticks, i, old(beats[i].gw), old(beats[i].due))
      ensures rounds != [] ==> now < beats[i].due
      ensures beats[i].fails == Streak(outcomes, ticks, old(beats[i].fails))
      ensures Steady(old(P()), i, old(beats[i].fails)) ==>
        (5000 * (WorstStreak(outcomes, ticks, old(beats[i].fails)) + 1) < 15000 ==> Present(P()))
    {
      ticks := Run(i, rounds, outcomes);
      assert Beating(old(P()), P(), i, outcomes, ticks);
      if Steady(old(P()), i, old(beats[i].fails)) && 5000 * (WorstStreak(outcomes, ticks, old(beats[i].fails)) + 1) < 15000 {
        BeatingPresent(old(P()), P(), i, outcomes, ticks);
      }
      StepInv(P(), Stop(i));
      beats := beats[i := beats[i].(live := false)];
    }
  }
}
