/**
 One gateway process: the connection map and the bounded channel of every connection it has opened.

 A channel is known by its index in `chans`, as a Go channel is known by its reference. The fields
 `accepted` and `taken` are history: what was ever put in, and what the writer has taken out.
 Sending looks the channel up under the lock and sends after releasing it, so other steps come
 between the two.
 */
module Gateway {
  import opened Counters
  import opened Backend

  const CAPACITY := 64

  datatype Chan<M> = Chan(user: User, buf: seq<M>, accepted: seq<M>, taken: seq<M>, written: seq<M>,
                          closed: bool, writing: bool)

  datatype Gate<M> = Gate(chans: seq<Chan<M>>, connMap: map<User, nat>)

  datatype Act<M> =
    | Register(user: User)
    | Unregister(user: User)
    | Send(ch: nat, msg: M)
    | Take(ch: nat, writeOk: bool)

  datatype Outcome = Delivered | Dropped | Panicked

  function NewChan<M>(u: User): Chan<M> {
    Chan(u, [], [], [], [], false, true)
  }

  /** `select { case ch <- msg: true; default: false }`; sending on a closed channel panics. */
  function SendResult<M>(c: Chan<M>): Outcome {
    if c.closed then Panicked else if |c.buf| < CAPACITY then Delivered else Dropped
  }

  function AfterSend<M>(c: Chan<M>, m: M): Chan<M> {
    if SendResult(c).Delivered? then c.(buf := c.buf + [m], accepted := c.accepted + [m]) else c
  }

  /** The writer takes the next message; a write error ends the writer for good. */
  function AfterTake<M>(c: Chan<M>, writeOk: bool): Chan<M> {
    if c.buf == [] || !c.writing then c
    else
      var m := c.buf[0];
      var d := c.(buf := c.buf[1..], taken := c.taken + [m]);
      if writeOk then d.(written := d.written + [m]) else d.(writing := false)
  }

  function Apply<M>(g: Gate<M>, a: Act<M>): Gate<M> {
    match a
    case Register(u) => Gate(g.chans + [NewChan(u)], g.connMap[u := |g.chans|])
    case Unregister(u) =>
      if u in g.connMap && g.connMap[u] < |g.chans| then
        var ch := g.connMap[u];
        Gate(g.chans[ch := g.chans[ch].(closed := true)], g.connMap - {u})
      else g
    case Send(ch, m) => if ch < |g.chans| then g.(chans := g.chans[ch := AfterSend(g.chans[ch], m)]) else g
    case Take(ch, ok) => if ch < |g.chans| then g.(chans := g.chans[ch := AfterTake(g.chans[ch], ok)]) else g
  }

  function Exec<M>(g: Gate<M>, acts: seq<Act<M>>): Gate<M>
    decreases |acts|
  {
    if acts == [] then g else Exec(Apply(g, acts[0]), acts[1..])
  }

  lemma {:induction false} ExecAppend<M>(g: Gate<M>, acts: seq<Act<M>>, a: Act<M>)
    ensures Exec(g, acts + [a]) == Apply(Exec(g, acts), a)
    decreases |acts|
  {
    if acts == [] {
      assert (acts + [a])[1..] == [];
    } else {
      ExecAppend(Apply(g, acts[0]), acts[1..], a);
      assert (acts + [a])[0] == acts[0] && (acts + [a])[1..] == acts[1..] + [a];
    }
  }

  // ----- conservation ----------------------------------------------------------------------

  /** Nothing is lost, repeated or reordered between the accepting send and the socket. */
  ghost predicate ChanOk<M>(c: Chan<M>) {
    && c.accepted == c.taken + c.buf
    && |c.buf| <= CAPACITY
    && (c.writing ==> c.written == c.taken)
    && (!c.writing ==> c.taken != [] && c.written == c.taken[..|c.taken| - 1])
  }

  /** The map only holds open channels, each under its own user, so no channel is closed twice. */
  ghost predicate GateOk<M>(g: Gate<M>) {
    && (forall i :: 0 <= i < |g.chans| ==> ChanOk(g.chans[i]))
    && (forall u :: u in g.connMap ==>
          g.connMap[u] < |g.chans| && !g.chans[g.connMap[u]].closed && g.chans[g.connMap[u]].user == u)
  }

  lemma TakeOk<M>(c: Chan<M>, writeOk: bool)
    requires ChanOk(c)
    ensures ChanOk(AfterTake(c, writeOk))
  {
    if c.buf != [] { assert c.taken + c.buf == c.taken + [c.buf[0]] + c.buf[1..]; }
  }

  lemma SendOk<M>(c: Chan<M>, m: M)
    requires ChanOk(c)
    ensures ChanOk(AfterSend(c, m))
  {
  }

  lemma StepOk<M>(g: Gate<M>, a: Act<M>)
    requires GateOk(g)
    ensures GateOk(Apply(g, a))
  {
    if a.Take? && a.ch < |g.chans| { TakeOk(g.chans[a.ch], a.writeOk); }
    if a.Send? && a.ch < |g.chans| { SendOk(g.chans[a.ch], a.msg); }
  }

  lemma {:induction false} ExecOk<M>(g: Gate<M>, acts: seq<Act<M>>)
    requires GateOk(g)
    ensures GateOk(Exec(g, acts))
    decreases |acts|
  {
    if acts == [] {
    } else {
      StepOk(g, acts[0]);
      ExecOk(Apply(g, acts[0]), acts[1..]);
    }
  }

  /** Socket output is a prefix of what was accepted, and all that was taken unless a write failed. */
  lemma SocketIsPrefix<M>(acts: seq<Act<M>>, ch: nat)
    requires ch < |Exec(Gate([], map[]), acts).chans|
    ensures var c := Exec(Gate([], map[]), acts).chans[ch];
      && c.written <= c.taken <= c.accepted == c.taken + c.buf
      && |c.buf| <= 64
      && (c.writing ==> c.written == c.taken)
      && |c.taken| <= |c.written| + 1
  {
    ExecOk(Gate([], map[]), acts);
    var g := Exec(Gate([], map[]), acts);
    assert ChanOk(g.chans[ch]);
  }

  /** Once a write has failed the writer is gone: nothing more is taken or written, whatever comes. */
  lemma {:induction false} WriterGone<M>(g: Gate<M>, acts: seq<Act<M>>, ch: nat)
    requires ch < |g.chans| && !g.chans[ch].writing
    ensures ch < |Exec(g, acts).chans|
    ensures var c := Exec(g, acts).chans[ch];
      !c.writing && c.written == g.chans[ch].written && c.taken == g.chans[ch].taken
    decreases |acts|
  {
    if acts == [] {
    } else {
      WriterGone(Apply(g, acts[0]), acts[1..], ch);
    }
  }

  /** A failed write loses the oldest message of the channel and is the writer's last, for good. */
  lemma FailedWriteIsLast<M>(g: Gate<M>, ch: nat, acts: seq<Act<M>>)
    requires ch < |g.chans| && g.chans[ch].writing && g.chans[ch].buf != []
    ensures var (b, h) := (g.chans[ch], Exec(Apply(g, Take(ch, false)), acts));
      ch < |h.chans| && h.chans[ch].written == b.written && h.chans[ch].taken == b.taken + [b.buf[0]]
  {
    WriterGone(Apply(g, Take(ch, false)), acts, ch);
  }

  function GoodTakes<M>(ch: nat, n: nat): seq<Act<M>> {
    if n == 0 then [] else [Take(ch, true)] + GoodTakes(ch, n - 1)
  }

  lemma FrontFirst<M>(written: seq<M>, buf: seq<M>, n: nat)
    requires 0 < n <= |buf|
    ensures written + [buf[0]] + buf[1..][..n - 1] == written + buf[..n] && buf[1..][n - 1..] == buf[n..]
  {
  }

  /** A writer left alone writes the buffered messages to the socket, oldest first. */
  lemma {:induction false} WriterDrains<M>(g: Gate<M>, ch: nat, n: nat)
    requires ch < |g.chans| && g.chans[ch].writing && n <= |g.chans[ch].buf|
    ensures var (b, h) := (g.chans[ch], Exec(g, GoodTakes(ch, n)));
      ch < |h.chans| && h.chans[ch].written == b.written + b.buf[..n] && h.chans[ch].buf == b.buf[n..]
    decreases n
  {
    if n == 0 {
    } else {
      var next: Gate<M> := Apply(g, Take(ch, true));
      var b := g.chans[ch];
      var rest: seq<Act<M>> := GoodTakes(ch, n - 1);
      var acts: seq<Act<M>> := GoodTakes(ch, n);
      assert acts[0] == Take(ch, true) && acts[1..] == rest;
      assert Exec(g, acts) == Exec(next, rest);
      assert next.chans[ch].buf == b.buf[1..] && next.chans[ch].written == b.written + [b.buf[0]];
      WriterDrains(next, ch, n - 1);
      FrontFirst(b.written, b.buf, n);
    }
  }

  // ----- reachability of a connection's channel --------------------------------------------

  predicate Touches<M>(a: Act<M>, u: User) {
    (a.Register? || a.Unregister?) && a.user == u
  }

  /** The first later step on u's map entry is a close; a newer connection's step would displace instead. */
  predicate ClosedFirst<M>(acts: seq<Act<M>>, u: User) {
    if acts == [] then false
    else if Touches(acts[0], u) then acts[0].Unregister?
    else ClosedFirst(acts[1..], u)
  }

  ghost predicate Unmapped<M>(g: Gate<M>, ch: nat) {
    ch < |g.chans| && forall u :: u in g.connMap ==> g.connMap[u] != ch
  }

  /** Once out of the map a channel never comes back and is neither closed nor reopened. */
  lemma {:induction false} UnmappedForGood<M>(g: Gate<M>, acts: seq<Act<M>>, ch: nat)
    requires GateOk(g) && Unmapped(g, ch)
    ensures Unmapped(Exec(g, acts), ch) && Exec(g, acts).chans[ch].closed == g.chans[ch].closed
    decreases |acts|
  {
    if acts == [] {
    } else {
      StepOk(g, acts[0]);
      UnmappedForGood(Apply(g, acts[0]), acts[1..], ch);
    }
  }

  /**
   A mapped channel stays u's entry exactly while no RegisterConn or UnregisterConn of u runs, and
   it ends up closed exactly when an UnregisterConn of u runs before any RegisterConn of u.
   */
  lemma {:induction false} ChannelFate<M>(g: Gate<M>, acts: seq<Act<M>>, u: User, ch: nat)
    requires GateOk(g) && u in g.connMap && g.connMap[u] == ch
    ensures var h := Exec(g, acts);
      && (u in h.connMap && h.connMap[u] == ch <==> forall i :: 0 <= i < |acts| ==> !Touches(acts[i], u))
      && ch < |h.chans| && (h.chans[ch].closed <==> ClosedFirst(acts, u))
    decreases |acts|
  {
    if acts == [] {
    } else {
      var next, rest := Apply(g, acts[0]), acts[1..];
      StepOk(g, acts[0]);
      if Touches(acts[0], u) {
        forall v | v in next.connMap ensures next.connMap[v] != ch {
          if v != u { assert v in g.connMap; }
        }
        UnmappedForGood(next, rest, ch);
      } else {
        ChannelFate(next, rest, u, ch);
        assert forall i :: 0 <= i < |rest| ==> rest[i] == acts[i + 1];
        assert (forall i :: 0 <= i < |rest| ==> !Touches(rest[i], u)) ==>
               forall i :: 0 <= i < |acts| ==> !Touches(acts[i], u) by {
          if forall i :: 0 <= i < |rest| ==> !Touches(rest[i], u) {
            forall i | 0 <= i < |acts| ensures !Touches(acts[i], u) {
              if i > 0 { assert acts[i] == rest[i - 1]; }
            }
          }
        }
      }
    }
  }

  /** From its own RegisterConn on, over all interleavings. */
  lemma ReachableUntilTouched<M>(g: Gate<M>, u: User, acts: seq<Act<M>>)
    requires GateOk(g)
    ensures var h := Exec(Apply(g, Register(u)), acts);
      && (u in h.connMap && h.connMap[u] == |g.chans| <==> forall i :: 0 <= i < |acts| ==> !Touches(acts[i], u))
      && |g.chans| < |h.chans| && (h.chans[|g.chans|].closed <==> ClosedFirst(acts, u))
  {
    StepOk(g, Register(u));
    ChannelFate(Apply(g, Register(u)), acts, u, |g.chans|);
  }

  // ----- the process -----------------------------------------------------------------------

  datatype Envelope = Empty | Full(msg: Message)

  class Server {
    var chans: seq<Chan<Message>>
    var connMap: map<User, nat>

    function G(): Gate<Message>
      reads this
    {
      Gate(chans, connMap)
    }

    ghost predicate Valid()
      reads this
    {
      GateOk(G())
    }

    constructor ()
      ensures Valid() && G() == Gate([], map[])
    {
      chans, connMap := [], map[];
    }

    /** make(chan, 64) followed by connMap[userID] = ch. */
    method RegisterConn(userID: User) returns (ch: nat)
      requires Valid()
      modifies this
      ensures Valid() && G() == Apply(old(G()), Register(userID))
      ensures ch == |old(chans)| && userID in connMap && connMap[userID] == ch
    {
      StepOk(G(), Register(userID));
      ch := |chans|;
      chans := chans + [NewChan(userID)];
      connMap := connMap[userID := ch];
    }

    method UnregisterConn(userID: User)
      requires Valid()
      modifies this
      ensures Valid() && G() == Apply(old(G()), Unregister(userID)) && userID !in connMap
      ensures userID in old(connMap) ==>
        !old(chans)[old(connMap)[userID]].closed && chans[old(connMap)[userID]].closed
    {
      StepOk(G(), Unregister(userID));
      if userID in connMap {
        var ch := connMap[userID];
        chans := chans[ch := chans[ch].(closed := true)];
        connMap := connMap - {userID};
      }
    }

    method ConnCount() returns (n: nat)
      ensures n == |connMap.Keys|
    {
      n := |connMap|;
    }

    /** Steps of other goroutines while this one holds no lock. */
    method Interfere(acts: seq<Act<Message>>)
      requires Valid()
      modifies this
      ensures Valid() && G() == Exec(old(G()), acts)
    {
      for i := 0 to |acts|
        invariant Valid() && G() == Exec(old(G()), acts[..i])
      {
        ExecAppend(old(G()), acts[..i], acts[i]);
        assert acts[..i + 1] == acts[..i] + [acts[i]];
        StepOk(G(), acts[i]);
        var h := Apply(G(), acts[i]);
        chans, connMap := h.chans, h.connMap;
      }
      assert acts[..|acts|] == acts;
    }

    /**
     DeliverLocal: the lookup, then the send. It panics exactly when the receiver's channel is
     closed between the two, and reports true exactly when the channel accepted the message.
     */
    method DeliverLocal(receiverID: User, msg: Message, between: seq<Act<Message>>) returns (r: Outcome)
      requires Valid()
      modifies this
      ensures Valid()
      ensures receiverID !in old(connMap) ==> r == Dropped && G() == old(G())
      ensures receiverID in old(connMap) ==>
        var ch := old(connMap)[receiverID];
        && G() == Apply(Exec(old(G()), between), Send(ch, msg))
        && ch < |Exec(old(G()), between).chans| && ch < |chans| && chans[ch].user == receiverID
        && (r == Panicked <==> ClosedFirst(between, receiverID))
        && (r == Delivered <==> !ClosedFirst(between, receiverID) && |Exec(old(G()), between).chans[ch].buf| < 64)
        && (r == Delivered <==> chans[ch].accepted == Exec(old(G()), between).chans[ch].accepted + [msg])
    {
      if receiverID !in connMap { return Dropped; }
      var ch := connMap[receiverID];
      ChannelFate(G(), between, receiverID, ch);
      UserKept(G(), between, ch);
      Interfere(between);
      StepOk(G(), Send(ch, msg));
      r := SendResult(chans[ch]);
      if r == Delivered {
        chans := chans[ch := chans[ch].(buf := chans[ch].buf + [msg], accepted := chans[ch].accepted + [msg])];
      }
    }

    /** The RPC: an empty message is refused, and only an accepted one is acknowledged as delivered. */
    method DeliverMessage(env: Envelope, between: seq<Act<Message>>) returns (r: Outcome)
      requires Valid()
      modifies this
      ensures Valid()
      ensures env.Empty? ==> r == Dropped && G() == old(G())
      ensures env.Full? && env.msg.receiver !in old(connMap) ==> r == Dropped && G() == old(G())
      ensures env.Full? && env.msg.receiver in old(connMap) ==>
        var ch := old(connMap)[env.msg.receiver];
        && G() == Apply(Exec(old(G()), between), Send(ch, env.msg))
        && ch < |Exec(old(G()), between).chans| && ch < |chans|
        && (r == Panicked <==> ClosedFirst(between, env.msg.receiver))
        && (r == Delivered <==> !ClosedFirst(between, env.msg.receiver) && |Exec(old(G()), between).chans[ch].buf| < 64)
        && (r == Delivered <==> chans[ch].accepted == Exec(old(G()), between).chans[ch].accepted + [env.msg])
    {
      if env.Empty? { return Dropped; }
      r := DeliverLocal(env.msg.receiver, env.msg, between);
    }
  }

  lemma {:induction false} UserKept<M>(g: Gate<M>, acts: seq<Act<M>>, ch: nat)
    requires ch < |g.chans|
    ensures ch < |Exec(g, acts).chans| && Exec(g, acts).chans[ch].user == g.chans[ch].user
    decreases |acts|
  {
    if acts == [] {
    } else {
      UserKept(Apply(g, acts[0]), acts[1..], ch);
    }
  }
}
