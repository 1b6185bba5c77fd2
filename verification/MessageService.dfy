/**
 The message service: PersistMessage, GetDiff and GetUserPts as they run against shared Redis and
 Postgres. Before every command the rest of the system may take any steps: each operation takes
 that interference, and the fate of its own commands, as a parameter.
 */
module MessageService {
  import opened Counters
  import opened Backend
  import opened Sequencing
  import opened Diff

  /** How the network treats one command of this call. */
  datatype NetFate = Normal | NoReply | Refused | FromDeposed(value: int)

  /** What happens to one command: others' steps first, then its own fate. */
  datatype Weather = Weather(before: seq<Action>, fate: NetFate)

  /** What the status message of a failed PersistMessage or GetDiff says. */
  datatype Cause = NoNumbers(why: Allocation) | UniqueViolation | StoreFailed

  datatype Result<T> = Ok(value: T) | Err(code: Code, cause: Cause)

  datatype Allocation =
    | Allocated(receiverPts: int, senderPts: int)
    | IncrReceiverFailed
    | IncrSenderFailed
    | WaitFailed
    | NotDurable

  /** Who answers a GET: the live primary, or a deposed one with the keys it has. */
  datatype Answerer = Live | Deposed(keys: map<User, int>)

  datatype DiffResponse = DiffResponse(messages: seq<Message>, currentPts: int)

  function Get(counters: map<User, int>, u: User): int {
    if u in counters then counters[u] else 0
  }

  /** The keys hold exactly what the log says, a missing key standing for 0. */
  ghost predicate CountersMatch(counters: map<User, int>, log: seq<Entry>) {
    forall u :: Get(counters, u) == Counter(log, u)
  }

  /** The keys of a primary that was live in f: its log then, and what late INCRs added. */
  ghost predicate KeysSince(a1: bool, f: State, keys: map<User, int>) {
    Reachable(a1, f) && exists log :: f.log <= log && CountersMatch(keys, log)
  }

  /** All numbers of u promised in runs up to f are at most p. */
  ghost predicate BoundsPromises(f: State, u: User, p: int) {
    forall s, q :: Reachable(true, s) && Reaches(true, s, f) && Promised(s, u, q) ==> q <= p
  }

  lemma KeysBound(f: State, keys: map<User, int>, u: User)
    requires KeysSince(true, f, keys)
    ensures BoundsPromises(f, u, Get(keys, u))
  {
    var log :| f.log <= log && CountersMatch(keys, log);
    assert Get(keys, u) == Counter(log, u);
    forall s, q | Reachable(true, s) && Reaches(true, s, f) && Promised(s, u, q) ensures q <= Get(keys, u) {
      DeposedReadIff(f, u, q);
    }
  }

  lemma BumpMatches(counters: map<User, int>, log: seq<Entry>, e: Entry)
    requires CountersMatch(counters, log)
    ensures CountersMatch(counters[e.user := Get(counters, e.user) + 1], log + [e])
  {
    var bumped := counters[e.user := Get(counters, e.user) + 1];
    forall u ensures Get(bumped, u) == Counter(log + [e], u) {
      IncrsAppend(log, e, u);
      assert Get(counters, u) == Counter(log, u);
    }
  }

  /** The PersistedMessage GetDiff builds: only the number of the user's own role is filled in. */
  function Wire(m: Message, u: User): Message {
    if m.receiver == u then m.(receiverPts := Pts(m, u), senderPts := 0)
    else m.(senderPts := Pts(m, u), receiverPts := 0)
  }

  function WireAll(rows: seq<Message>, u: User): (out: seq<Message>)
    ensures |out| == |rows| && forall i :: 0 <= i < |rows| ==> out[i] == Wire(rows[i], u)
  {
    if rows == [] then [] else WireAll(rows[..|rows| - 1], u) + [Wire(rows[|rows| - 1], u)]
  }

  /** The number of row m that is u's own: the received one for a message to oneself. */
  function Own(m: Message, u: User): int {
    if m.receiver == u then m.receiverPts else m.senderPts
  }

  /** m was sent or received by u, and u's number of it is above the cursor. */
  predicate Due(m: Message, u: User, cursor: int) {
    (m.receiver == u || m.sender == u) && Own(m, u) > cursor
  }

  /**
   GetDiff's promise, in the words of the request: rows due to u in ascending order, each once and
   each sent with u's own number alone; and if a due row is missing, the page is full and holds
   nothing numbered above it.
   */
  ghost predicate Answers(table: seq<Message>, u: User, cursor: int, limit: int, rows: seq<Message>, out: seq<Message>) {
    && |out| == |rows| <= limit
    && (forall i :: 0 <= i < |rows| ==>
          && rows[i] in table && Due(rows[i], u, cursor)
          && out[i] == Message(rows[i].id, rows[i].sender, rows[i].receiver, rows[i].content,
                               if rows[i].receiver == u then 0 else rows[i].senderPts,
                               if rows[i].receiver == u then rows[i].receiverPts else 0))
    && (forall i, j :: 0 <= i < j < |rows| ==> Own(rows[i], u) <= Own(rows[j], u) && rows[i].id != rows[j].id)
    && (forall m :: m in table && Due(m, u, cursor) && m !in rows ==>
          |rows| == limit && forall i :: 0 <= i < |rows| ==> Own(rows[i], u) <= Own(m, u))
  }

  lemma AnswersSpelled(table: seq<Message>, u: User, cursor: int, limit: nat, rows: seq<Message>)
    requires IsAnswer(table, u, cursor, limit, rows)
    ensures Answers(table, u, cursor, limit, rows, WireAll(rows, u))
  {
    assert forall m :: Concerns(m, u) ==> Pts(m, u) == Own(m, u);
    assert forall i :: 0 <= i < |rows| ==> rows[i] in rows && WireAll(rows, u)[i] == Wire(rows[i], u);
  }

  predicate Moves(a: Action, c: int) {
    (a.Incr? || a.WaitAcked? || a.Insert? || a.InsertLost? || a.GiveUp?) && a.call == c
  }

  // ----- the states a call's commands meet --------------------------------------------------

  /** Others' steps, as far as each is possible when its turn comes. */
  function Around(a1: bool, s: State, acts: seq<Action>, me: int): State {
    if acts == [] then s
    else
      var t, a := Around(a1, s, acts[..|acts| - 1], me), acts[|acts| - 1];
      if Enabled(a1, t, a) && !Moves(a, me) then Next(a1, t, a) else t
  }

  /** A step of others leaves call `me` where it was. */
  lemma OthersMove(a1: bool, s: State, a: Action, me: int)
    requires Enabled(a1, s, a) && !Moves(a, me)
    ensures var t := Next(a1, s, a);
      |s.calls| <= |t.calls| && s.epoch <= t.epoch && (0 <= me < |s.calls| ==> t.calls[me] == s.calls[me])
  {
  }

  lemma {:induction false} AroundKeeps(a1: bool, s: State, acts: seq<Action>, me: nat)
    requires me < |s.calls|
    ensures me < |Around(a1, s, acts, me).calls| && Around(a1, s, acts, me).calls[me] == s.calls[me]
    decreases |acts|
  {
    if acts == [] {
    } else {
      var front := acts[..|acts| - 1];
      AroundKeeps(a1, s, front, me);
      if Enabled(a1, Around(a1, s, front, me), acts[|acts| - 1]) && !Moves(acts[|acts| - 1], me) {
        OthersMove(a1, Around(a1, s, front, me), acts[|acts| - 1], me);
      }
    }
  }

  /** A failed call takes no further command. */
  lemma FailedForGood(a1: bool, s: State, c: nat, w: Weather)
    requires c < |s.calls| && s.calls[c].phase.Failed?
    ensures c < |AfterCommand(a1, s, c, w).calls| && AfterCommand(a1, s, c, w).calls[c] == s.calls[c]
  {
    AroundKeeps(a1, s, w.before, c);
  }

  /** Call c still has an INCR to make. */
  predicate Counting(s: State, c: nat) {
    c < |s.calls| && (s.calls[c].phase.AtReceiver? || s.calls[c].phase.AtSender?)
  }

  /** The state an INCR's outcome leaves; without an answer the call has failed. */
  function AfterCommand(a1: bool, s: State, c: nat, w: Weather): State {
    var t := Around(a1, s, w.before, c);
    if !Counting(t, c) then t
    else match w.fate
         case Normal => Next(a1, t, Action.Incr(c, Fresh))
         case NoReply => Next(a1, Next(a1, t, Action.Incr(c, Lost)), GiveUp(c))
         case Refused => Next(a1, t, GiveUp(c))
         case FromDeposed(v) => if t.epoch > 0 then Next(a1, t, Action.Incr(c, Stale(v))) else Next(a1, t, GiveUp(c))
  }

  /** The state in which the call's WAIT runs, if both INCRs were answered. */
  function AtItsWait(a1: bool, s: State, c: nat, incrReceiver: Weather, incrSender: Weather, wait: Weather): State {
    Around(a1, AfterCommand(a1, AfterCommand(a1, s, c, incrReceiver), c, incrSender), wait.before, c)
  }

  /** Both INCRs were answered, and the WAIT is too; under A1 the replica then holds both. */
  predicate Granted(a1: bool, s: State, c: nat, wait: Weather) {
    && wait.fate.Normal? && c < |s.calls| && s.calls[c].phase.AtWait?
    && (a1 ==> Covered(s, s.calls[c].phase.r) && Covered(s, s.calls[c].phase.s))
  }

  /** The state in which the call's INSERT runs, after a WAIT acked in s. */
  function AtItsInsert(a1: bool, s: State, c: nat, wait: Weather, insert: Weather): State
    requires Granted(a1, s, c, wait)
  {
    Around(a1, Next(a1, s, WaitAcked(c)), insert.before, c)
  }

  /** A row of the table has one of the call's numbers in the same role. */
  predicate Taken(s: State, c: nat) {
    c < |s.calls| && s.calls[c].phase.AtInsert? && Rejected(s.table, MessageOf(c, s.calls[c]))
  }

  /** A promoted replica rebuilds its keys from the part of the log it holds. */
  method Replay(log: seq<Entry>) returns (counters: map<User, int>)
    ensures CountersMatch(counters, log)
  {
    counters := map[];
    for i := 0 to |log|
      invariant CountersMatch(counters, log[..i])
    {
      var u := log[i].user;
      BumpMatches(counters, log[..i], log[i]);
      assert log[..i + 1] == log[..i] + [log[i]];
      counters := counters[u := Get(counters, u) + 1];
    }
    assert log[..|log|] == log;
  }

  /** Apart from failover a step appends at most one entry. */
  lemma LogShape(a1: bool, s: State, a: Action)
    requires Enabled(a1, s, a) && !a.Failover?
    ensures var t := Next(a1, s, a);
      t.log == s.log || (|t.log| == |s.log| + 1 && t.log == s.log + [t.log[|s.log|]])
  {
  }

  class Service {
    const a1: bool
    var counters: map<User, int>
    var log: seq<Entry>
    var replica: Replica
    var epoch: nat
    var calls: seq<Call>
    var table: seq<Message>

    function St(): State
      reads this
    {
      State(log, replica, epoch, calls, table)
    }

    ghost predicate Valid()
      reads this
    {
      Reachable(a1, St()) && CountersMatch(counters, log)
    }

    constructor (a1: bool)
      ensures Valid() && this.a1 == a1 && St() == Init()
    {
      this.a1 := a1;
      counters, log, replica, epoch, calls, table := map[], [], Online(0), 0, [], [];
      new;
      assert Path(a1, Init(), [], St());
    }

    /** One atomic action of the back end. */
    method Do(a: Action)
      requires Valid() && Enabled(a1, St(), a)
      modifies this
      ensures Valid() && St() == Next(a1, old(St()), a)
      ensures Reaches(a1, old(St()), St())
    {
      var s, t := St(), Next(a1, St(), a);
      if !a.Failover? { LogShape(a1, s, a); }
      if a.Failover? {
        counters := Replay(t.log);
      } else if |t.log| > |log| {
        var e := t.log[|log|];
        BumpMatches(counters, log, e);
        counters := counters[e.user := Get(counters, e.user) + 1];
      }
      log, replica, epoch, calls, table := t.log, t.replica, t.epoch, t.calls, t.table;
      PathOne(a1, s, a);
      ReachesTrans(a1, Init(), s, t);
    }

    /** Other calls, Redis and its replica take the steps that are possible; call `me` does not move. */
    method Interfere(acts: seq<Action>, me: int)
      requires Valid()
      modifies this
      ensures Valid() && Reaches(a1, old(St()), St()) && |old(calls)| <= |calls|
      ensures St() == Around(a1, old(St()), acts, me)
      ensures 0 <= me < |old(calls)| ==> calls[me] == old(calls)[me]
      ensures old(epoch) <= epoch
    {
      assert Path(a1, St(), [], St());
      for i := 0 to |acts|
        invariant Valid() && Reaches(a1, old(St()), St()) && |old(calls)| <= |calls|
        invariant St() == Around(a1, old(St()), acts[..i], me)
        invariant 0 <= me < |old(calls)| ==> calls[me] == old(calls)[me]
        invariant old(epoch) <= epoch
      {
        assert acts[..i + 1][..i] == acts[..i];
        if Enabled(a1, St(), acts[i]) && !Moves(acts[i], me) {
          ghost var before := St();
          OthersMove(a1, before, acts[i], me);
          Do(acts[i]);
          ReachesTrans(a1, old(St()), before, St());
        }
      }
      assert acts[..|acts|] == acts;
    }

    /** INCR of the key the call needs next; a normal reply is the key's new value. */
    method Incr(c: nat, w: Weather) returns (answered: bool, value: int)
      requires Valid() && c < |calls| && (calls[c].phase.AtReceiver? || calls[c].phase.AtSender?)
      modifies this
      ensures Valid() && Reaches(a1, old(St()), St()) && St() == AfterCommand(a1, old(St()), c, w)
      ensures c < |calls| && calls[c].sender == old(calls[c].sender) && calls[c].receiver == old(calls[c].receiver)
      ensures calls[c].content == old(calls[c].content)
      ensures w.fate.NoReply? || w.fate.Refused? ==> !answered
      ensures w.fate.Normal? && w.before == [] ==> value == Counter(old(log), Party(calls[c], NextRole(old(calls[c].phase)))) + 1
      ensures answered ==> exists slot: Slot :: slot.value == value && calls[c].phase == Filled(old(calls[c].phase), slot)
      ensures !answered ==> calls[c].phase == Failed(Unavailable) && forall m :: m in table ==> m.id != c
      ensures w.fate.Normal? ==> answered && value == Counter(log, Party(calls[c], NextRole(old(calls[c].phase))))
      ensures answered ==> w.fate.Normal? || w.fate.FromDeposed?
      ensures old(epoch) <= epoch && (w.fate.Normal? ==> SlotOf(calls[c].phase, NextRole(old(calls[c].phase))).epoch == epoch)
    {
      Interfere(w.before, c);
      ghost var mid := St();
      var u := Party(calls[c], NextRole(calls[c].phase));
      NoRowWhileRunning(a1, St(), c);
      if w.fate.FromDeposed? && epoch > 0 {
        Do(Action.Incr(c, Stale(w.fate.value)));
        answered, value := true, w.fate.value;
      } else if w.fate.Normal? {
        Do(Action.Incr(c, Fresh));
        answered, value := true, Get(counters, u);
      } else {
        if w.fate.NoReply? {
          Do(Action.Incr(c, Lost));
          ReachesTrans(a1, old(St()), mid, St());
          mid := St();
        }
        Do(GiveUp(c));
        answered, value := false, 0;
      }
      ReachesTrans(a1, old(St()), mid, St());
      if answered { assert calls[c].phase == Filled(old(calls[c].phase), SlotOf(calls[c].phase, NextRole(old(calls[c].phase)))); }
    }

    /** WAIT 1: one replica, or none within the timeout. A replica that has caught up acks every reply of this epoch. */
    method Wait(c: nat, w: Weather) returns (acked: int)
      requires Valid() && c < |calls| && calls[c].phase.AtWait?
      modifies this
      ensures Valid() && Reaches(a1, old(St()), St()) && (acked == 0 || acked == 1) && old(epoch) <= epoch
      ensures c < |calls| && calls[c].sender == old(calls[c].sender) && calls[c].receiver == old(calls[c].receiver)
      ensures calls[c].content == old(calls[c].content)
      ensures acked == 1 ==> w.fate.Normal? && calls[c].phase == AtInsert(old(calls[c].phase.r), old(calls[c].phase.s))
      ensures acked == 0 ==> calls[c].phase == Failed(Unavailable) && forall m :: m in table ==> m.id != c
      ensures var t := Around(a1, old(St()), w.before, c);
        && (acked == 1 <==> Granted(a1, t, c, w))
        && (acked == 1 ==> St() == Next(a1, t, WaitAcked(c)))
      ensures w.fate.Normal? && replica == Online(|log|) && CurrentReplies(old(calls[c].phase), epoch) ==> acked == 1
    {
      Interfere(w.before, c);
      ghost var mid := St();
      NoRowWhileRunning(a1, St(), c);
      if a1 && replica == Online(|log|) && CurrentReplies(calls[c].phase, epoch) { CaughtUpCovers(St(), c); }
      if w.fate.Normal? && Enabled(a1, St(), WaitAcked(c)) {
        Do(WaitAcked(c));
        acked := 1;
      } else {
        Do(GiveUp(c));
        acked := 0;
      }
      ReachesTrans(a1, old(St()), mid, St());
    }

    /** The receiver's INCR and then the sender's; the first failure ends the call. */
    method BothIncrs(c: nat, incrReceiver: Weather, incrSender: Weather) returns (r: Allocation)
      requires Valid() && c < |calls| && calls[c].phase.AtReceiver?
      modifies this
      ensures Valid() && Reaches(a1, old(St()), St()) && old(epoch) <= epoch
      ensures var first := AfterCommand(a1, old(St()), c, incrReceiver);
        St() == if r.IncrReceiverFailed? then first else AfterCommand(a1, first, c, incrSender)
      ensures c < |calls| && calls[c].(phase := AtReceiver) == old(calls[c])
      ensures r.Allocated? || r.IncrReceiverFailed? || r.IncrSenderFailed?
      ensures r.Allocated? ==>
        calls[c].phase.AtWait? && calls[c].phase.r.value == r.receiverPts && calls[c].phase.s.value == r.senderPts
      ensures r.Allocated? && incrReceiver.fate.Normal? && incrReceiver.before == [] ==>
        r.receiverPts == Counter(old(log), calls[c].receiver) + 1
      ensures r.Allocated? && incrReceiver.fate.Normal? && incrReceiver.before == []
              && incrSender.fate.Normal? && incrSender.before == [] ==>
        r.senderPts == Counter(old(log), calls[c].sender) + (if calls[c].sender == calls[c].receiver then 2 else 1)
      ensures !r.Allocated? ==> calls[c].phase == Failed(Unavailable) && forall m :: m in table ==> m.id != c
      ensures incrReceiver.fate.NoReply? || incrReceiver.fate.Refused? ==> r.IncrReceiverFailed?
      ensures incrReceiver.fate.Normal? ==> !r.IncrReceiverFailed?
      ensures incrReceiver.fate.Normal? && incrSender.fate.Normal? ==>
        r.Allocated? && (epoch == old(epoch) ==> CurrentReplies(calls[c].phase, epoch))
    {
      var ok, receiverPts := Incr(c, incrReceiver);
      ghost var first := St();
      if !ok { return IncrReceiverFailed; }
      if incrReceiver.fate.Normal? && incrReceiver.before == [] {
        assert first.log == old(log) + [Entry(calls[c].receiver, Replied(c, Received))];
        IncrsAppend(old(log), Entry(calls[c].receiver, Replied(c, Received)), calls[c].sender);
      }
      var ok2, senderPts := Incr(c, incrSender);
      ReachesTrans(a1, old(St()), first, St());
      r := if ok2 then Allocated(receiverPts, senderPts) else IncrSenderFailed;
    }

    /** AllocatePTSWithWait: both INCRs, then one WAIT; any failure returns at once. */
    method AllocatePTSWithWait(c: nat, incrReceiver: Weather, incrSender: Weather, wait: Weather)
      returns (r: Allocation)
      requires Valid() && c < |calls| && calls[c].phase.AtReceiver?
      modifies this
      ensures Valid() && Reaches(a1, old(St()), St())
      ensures c < |calls| && calls[c].sender == old(calls[c].sender) && calls[c].receiver == old(calls[c].receiver)
      ensures calls[c].content == old(calls[c].content)
      ensures r.Allocated? ==>
        && calls[c].phase.AtInsert?
        && calls[c].phase.r.value == r.receiverPts
        && calls[c].phase.s.value == r.senderPts
      ensures !r.Allocated? ==> calls[c].phase == Failed(Unavailable) && forall m :: m in table ==> m.id != c
      ensures var t := AtItsWait(a1, old(St()), c, incrReceiver, incrSender, wait);
        && (r.Allocated? <==> Granted(a1, t, c, wait))
        && (r.Allocated? ==> St() == Next(a1, t, WaitAcked(c)))
        && (r.IncrReceiverFailed? || r.IncrSenderFailed? <==> !(c < |t.calls| && t.calls[c].phase.AtWait?))
      ensures r.Allocated? && incrReceiver.fate.Normal? && incrReceiver.before == [] ==>
        r.receiverPts == Counter(old(log), calls[c].receiver) + 1
      ensures r.Allocated? && incrReceiver.fate.Normal? && incrReceiver.before == []
              && incrSender.fate.Normal? && incrSender.before == [] ==>
        r.senderPts == Counter(old(log), calls[c].sender) + (if calls[c].sender == calls[c].receiver then 2 else 1)
      ensures incrReceiver.fate.NoReply? || incrReceiver.fate.Refused? ==> r.IncrReceiverFailed?
      ensures incrReceiver.fate.Normal? ==> !r.IncrReceiverFailed?
      ensures incrReceiver.fate.Normal? && incrSender.fate.Normal? ==> !r.IncrSenderFailed?
      ensures r.Allocated? ==> wait.fate.Normal?
      ensures r.WaitFailed? ==> wait.fate.NoReply? || wait.fate.Refused?
      ensures r.NotDurable? ==> wait.fate.Normal? || wait.fate.FromDeposed?
      ensures incrReceiver.fate.Normal? && incrSender.fate.Normal? && wait.fate.Normal? ==>
        r.Allocated? || (r.NotDurable? && a1)
      ensures incrReceiver.fate.Normal? && incrSender.fate.Normal? && wait.fate.Normal? ==>
        (epoch == old(epoch) && replica == Online(|log|) ==> r.Allocated?)
    {
      var pts := BothIncrs(c, incrReceiver, incrSender);
      ghost var counted := St();
      if pts.IncrReceiverFailed? {
        FailedForGood(a1, counted, c, incrSender);
        AroundKeeps(a1, AfterCommand(a1, counted, c, incrSender), wait.before, c);
      }
      AroundKeeps(a1, counted, wait.before, c);
      if !pts.Allocated? { return pts; }
      var acked := Wait(c, wait);
      ReachesTrans(a1, old(St()), counted, St());
      if acked == 1 { return pts; }
      r := if wait.fate.NoReply? || wait.fate.Refused? then WaitFailed else NotDurable;
    }

    /** The INSERT of a call whose WAIT was acked: a lost reply may hide a committed row. */
    method StoreRow(c: nat, w: Weather) returns (r: Result<Message>)
      requires Valid() && c < |calls| && calls[c].phase.AtInsert?
      modifies this
      ensures Valid() && Reaches(a1, old(St()), St()) && c < |calls|
      ensures var x := Around(a1, old(St()), w.before, c);
        && (a1 ==> !Taken(x, c))
        && (r.Ok? <==> w.fate.Normal? && !Taken(x, c))
        && (w.fate.NoReply? ==> ((exists m :: m in table && m.id == c) <==> !Taken(x, c)))
      ensures r.Ok? ==> r.value == MessageOf(c, old(calls[c])) && r.value in table
      ensures r.Err? ==> calls[c].phase == Failed(r.code)
      ensures r.Err? && w.fate.Normal? ==> r == Err(Unavailable, UniqueViolation)
      ensures r.Err? && !w.fate.Normal? ==> r == Err(Internal, StoreFailed)
      ensures r.Err? && r.code == Unavailable ==> forall m :: m in table ==> m.id != c
    {
      Interfere(w.before, c);
      ghost var ready := St();
      NoRowWhileRunning(a1, St(), c);
      if a1 {
        Always(St());
        InsertCommits(St(), c);
      }
      var row := MessageOf(c, calls[c]);
      if w.fate.Normal? {
        var violated := Rejected(table, row);
        Do(Insert(c));
        r := if violated then Err(Unavailable, UniqueViolation) else Ok(row);
      } else if w.fate.NoReply? {
        Do(InsertLost(c));
        r := Err(Internal, StoreFailed);
        assert !Taken(ready, c) ==> row in table && row.id == c;
      } else {
        Do(GiveUp(c));
        r := Err(Internal, StoreFailed);
      }
      ReachesTrans(a1, old(St()), ready, St());
    }

    /**
     PersistMessage. It succeeds exactly when both INCRs are answered, the WAIT is acked, which under
     A1 means that the replica holds both INCRs when it runs, and the INSERT is answered and meets no
     row with one of its numbers. Success means the row is in the table with exactly the returned
     fields; Unavailable means this call left no row, so a retry cannot duplicate the message.
     */
    method PersistMessage(sender: User, receiver: User, content: string,
                          incrReceiver: Weather, incrSender: Weather, wait: Weather, insert: Weather)
      returns (r: Result<Message>)
      requires Valid()
      modifies this
      ensures Valid() && Reaches(a1, old(St()), St()) && |calls| > |old(calls)|
      ensures r.Ok? ==>
        && r.value in table && r.value.id == |old(calls)|
        && r.value.sender == sender && r.value.receiver == receiver && r.value.content == content
      ensures r.Ok? && a1 ==> forall m, mRole, role ::
        m in old(table) && UserOf(m, mRole) == UserOf(r.value, role) ==> PtsOf(m, mRole) < PtsOf(r.value, role)
      ensures r.Err? ==> calls[|old(calls)|].phase == Failed(r.code)
      ensures r.Err? && r.code == Unavailable ==> forall m :: m in table ==> m.id != |old(calls)|
      ensures r.Err? && r.code == Internal ==> r.cause == StoreFailed && !insert.fate.Normal?
      ensures r.Err? && r.cause.NoNumbers? ==> r.code == Unavailable && !r.cause.why.Allocated?
      ensures r.Err? && r.cause.UniqueViolation? ==> r.code == Unavailable && !a1
      ensures r.Ok? ==> wait.fate.Normal? && insert.fate.Normal?
      ensures var c := |old(calls)|;
        var t := AtItsWait(a1, Next(a1, old(St()), Start(sender, receiver, content)), c, incrReceiver, incrSender, wait);
        && (Granted(a1, t, c, wait) <==> !(r.Err? && r.cause.NoNumbers?))
        && (Granted(a1, t, c, wait) ==>
              var x := AtItsInsert(a1, t, c, wait, insert);
              && (a1 ==> !Taken(x, c))
              && (r.Ok? <==> insert.fate.Normal? && !Taken(x, c))
              && (insert.fate.NoReply? ==> ((exists m :: m in table && m.id == c) <==> !Taken(x, c))))
      ensures r.Ok? && incrReceiver.fate.Normal? && incrReceiver.before == [] ==>
        r.value.receiverPts == Counter(old(log), receiver) + 1
      ensures r.Ok? && incrReceiver.fate.Normal? && incrReceiver.before == []
              && incrSender.fate.Normal? && incrSender.before == [] ==>
        r.value.senderPts == Counter(old(log), sender) + (if sender == receiver then 2 else 1)
      ensures r.Ok? && a1 ==>
        && Owns(log, receiver, r.value.receiverPts, Replied(r.value.id, Received))
        && Owns(log, sender, r.value.senderPts, Replied(r.value.id, Role.Sent))
      ensures a1 && old(replica).Online? && Calm(incrReceiver, []) && Calm(incrSender, [])
              && Calm(wait, [Replicate(|old(log)| + 2)]) && Calm(insert, []) ==>
        && r.Ok? && r.value.receiverPts == Counter(old(log), receiver) + 1
        && r.value.senderPts == Counter(old(log), sender) + (if sender == receiver then 2 else 1)
    {
      var c := |calls|;
      if a1 && replica.Online? && Calm(incrReceiver, []) && Calm(incrSender, [])
         && Calm(wait, [Replicate(|log| + 2)]) {
        CalmIsGranted(St(), sender, receiver, content, incrReceiver, incrSender, wait);
      }
      Do(Start(sender, receiver, content));
      ghost var begun := St();
      var pts := AllocatePTSWithWait(c, incrReceiver, incrSender, wait);
      ReachesTrans(a1, old(St()), begun, St());
      if !pts.Allocated? { return Err(Unavailable, NoNumbers(pts)); }
      ghost var granted := St();
      r := StoreRow(c, insert);
      ReachesTrans(a1, old(St()), granted, St());
      if r.Ok? && a1 { OkIsOrdered(old(St()), St(), r.value); }
    }

    /**
     GetUserPTS: the key's value, 0 when it is missing. The answer is at least every number promised
     while the answering primary was live; f is a state in which it was.
     */
    method GetUserPTS(userID: User, server: Answerer, ghost f: State) returns (pts: int)
      requires Valid() && (if server.Live? then f == St() else KeysSince(a1, f, server.keys))
      ensures server.Live? ==> pts == Counter(log, userID)
      ensures server.Deposed? ==> pts == if userID in server.keys then server.keys[userID] else 0
      ensures a1 ==> BoundsPromises(f, userID, pts)
    {
      var keys := if server.Live? then counters else server.keys;
      pts := if userID in keys then keys[userID] else 0;
      assert pts == Get(keys, userID);
      if a1 { KeysBound(f, keys, userID); }
    }

    /** The SELECT of GetDiff: some answer SQL allows. */
    method Query(userID: User, clientPts: int, limit: nat) returns (rows: seq<Message>)
      requires Valid()
      ensures IsAnswer(table, userID, clientPts, limit, rows) && rows == Page(table, userID, clientPts, limit)
    {
      rows := Page(table, userID, clientPts, limit);
      ghost var acts :| Path(a1, Init(), acts, St());
      BaseForward(a1, Init(), acts, St());
      PageIsAnswer(table, userID, clientPts, limit);
    }

    /** The scan loop: each row is sent with the user's own number alone. */
    method Scan(userID: User, rows: seq<Message>, scanFailsAt: int) returns (ok: bool, messages: seq<Message>)
      ensures ok <==> !(0 <= scanFailsAt < |rows|)
      ensures ok ==> messages == WireAll(rows, userID)
    {
      messages := [];
      for i := 0 to |rows|
        invariant messages == WireAll(rows[..i], userID)
        invariant !(0 <= scanFailsAt < i)
      {
        if i == scanFailsAt { return false, []; }
        var pts := Pts(rows[i], userID);
        var pm := rows[i].(senderPts := 0, receiverPts := 0);
        if rows[i].receiver == userID {
          pm := pm.(receiverPts := pts);
        } else {
          pm := pm.(senderPts := pts);
        }
        assert rows[..i + 1][..i] == rows[..i];
        messages := messages + [pm];
      }
      assert rows[..|rows|] == rows;
      ok := true;
    }

    /** GetDiff: one query, the scan loop, then a separate read of the counter. */
    method GetDiff(userID: User, clientPts: int, limit: int, queryFails: bool, scanFailsAt: int,
                   between: seq<Action>, redisFails: bool, server: Answerer, ghost f: State)
      returns (r: Result<DiffResponse>)
      requires Valid() && (server.Deposed? ==> KeysSince(a1, f, server.keys))
      modifies this
      ensures Valid() && Reaches(a1, old(St()), St())
      ensures r.Ok? && server.Live? ==> r.value.currentPts == Counter(log, userID)
      ensures r.Ok? && server.Deposed? ==>
        r.value.currentPts == if userID in server.keys then server.keys[userID] else 0
      ensures r.Ok? ==> exists rows ::
        && IsAnswer(old(table), userID, clientPts, EffectiveLimit(limit), rows)
        && r.value.messages == WireAll(rows, userID)
        && Answers(old(table), userID, clientPts, if 0 < limit <= 1000 then limit else 1000, rows, r.value.messages)
        && (a1 && (server.Live? || Reaches(true, old(St()), f)) ==>
              forall m :: m in rows ==> Pts(m, userID) <= r.value.currentPts)
      ensures r.Err? ==> r == Err(Internal, StoreFailed)
      ensures var n := |Page(old(table), userID, clientPts, EffectiveLimit(limit))|;
        r.Err? <==> (queryFails || redisFails || 0 <= scanFailsAt < n)
    {
      var capped := limit;
      if capped <= 0 || capped > MAX_LIMIT {
        capped := MAX_LIMIT;
      }
      assert Path(a1, St(), [], St());
      if queryFails { return Err(Internal, StoreFailed); }
      var rows := Query(userID, clientPts, capped);
      var ok, messages := Scan(userID, rows, scanFailsAt);
      if !ok { return Err(Internal, StoreFailed); }
      AnswersSpelled(table, userID, clientPts, capped, rows);
      Interfere(between, -1);
      if redisFails { return Err(Internal, StoreFailed); }
      ghost var live := if server.Live? then St() else f;
      var currentPts := GetUserPTS(userID, server, live);
      r := Ok(DiffResponse(messages, currentPts));
      if a1 && Reaches(true, old(St()), live) { RowsBounded(old(St()), live, userID, rows, currentPts); }
    }
  }

  /** A returned row owns its numbers, and they are above those of every earlier row of its parties. */
  lemma OkIsOrdered(s: State, t: State, row: Message)
    requires Reachable(true, s) && Reaches(true, s, t) && Reachable(true, t) && row in t.table && row.id >= |s.calls|
    ensures Owns(t.log, row.receiver, row.receiverPts, Replied(row.id, Received))
    ensures Owns(t.log, row.sender, row.senderPts, Replied(row.id, Role.Sent))
    ensures forall m, mRole, role :: m in s.table && UserOf(m, mRole) == UserOf(row, role) ==>
              PtsOf(m, mRole) < PtsOf(row, role)
  {
    Always(t);
    RowOwner(t, row, Received);
    RowOwner(t, row, Role.Sent);
    forall m, mRole, role | m in s.table && UserOf(m, mRole) == UserOf(row, role)
      ensures PtsOf(m, mRole) < PtsOf(row, role)
    {
      CommitOrder(s, t, m, mRole, row, role);
    }
  }

  /** Rows read before f are numbered at most as high as an answer that bounds f's promises. */
  lemma RowsBounded(s: State, f: State, u: User, rows: seq<Message>, p: int)
    requires Reachable(true, s) && Reaches(true, s, f) && BoundsPromises(f, u, p)
    requires forall m :: m in rows ==> m in s.table && Concerns(m, u)
    ensures forall m :: m in rows ==> Pts(m, u) <= p
  {
    forall m | m in rows ensures Pts(m, u) <= p {
      assert UserOf(m, Shown(m, u)) == u;
      assert Promised(s, u, Pts(m, u));
    }
  }

  /** The command is answered, after just these steps of others. */
  predicate Calm(w: Weather, before: seq<Action>) {
    w.fate.Normal? && w.before == before
  }

  /** A call left alone, but for the replica catching up before the WAIT, gets its numbers. */
  lemma CalmIsGranted(s: State, sender: User, receiver: User, content: string,
                      incrReceiver: Weather, incrSender: Weather, wait: Weather)
    requires Reachable(true, s) && s.replica.Online?
    requires Calm(incrReceiver, []) && Calm(incrSender, []) && Calm(wait, [Replicate(|s.log| + 2)])
    ensures var t := AtItsWait(true, Next(true, s, Start(sender, receiver, content)), |s.calls|, incrReceiver, incrSender, wait);
      Granted(true, t, |s.calls|, wait)
  {
    Always(s);
    var c := |s.calls|;
    var begun := Next(true, s, Start(sender, receiver, content));
    var first := Next(true, begun, Action.Incr(c, Fresh));
    assert AfterCommand(true, begun, c, incrReceiver) == first;
    var second := Next(true, first, Action.Incr(c, Fresh));
    assert AfterCommand(true, first, c, incrSender) == second;
    assert |second.log| == |s.log| + 2;
    assert wait.before[..0] == [];
    assert Around(true, second, wait.before, c) == second.(replica := Online(|s.log| + 2));
  }

  predicate CurrentReplies(p: Phase, epoch: nat) {
    p.AtWait? && p.r.epoch == epoch && p.s.epoch == epoch
  }

  /** A replica that holds the whole log covers every reply of the current epoch. */
  lemma CaughtUpCovers(s: State, c: nat)
    requires Reachable(true, s) && c < |s.calls| && CurrentReplies(s.calls[c].phase, s.epoch)
    requires s.replica == Online(|s.log|)
    ensures Enabled(true, s, WaitAcked(c))
  {
    Always(s);
    assert RoleOk(s, c, Received) && RoleOk(s, c, Role.Sent);
  }

  /** A call that is still running has no row. */
  lemma NoRowWhileRunning(a1: bool, s: State, c: nat)
    requires Reachable(a1, s) && c < |s.calls| && !s.calls[c].phase.Persisted? && !s.calls[c].phase.Failed?
    ensures forall m :: m in s.table ==> m.id != c
  {
    var acts :| Path(a1, Init(), acts, s);
    BaseForward(a1, Init(), acts, s);
    forall m | m in s.table ensures m.id != c { assert RowBelongs(s, m); }
  }
}
