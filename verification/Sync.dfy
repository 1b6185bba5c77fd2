/**
 GetDiff while the back end keeps running: what a cursor can miss, and the proof that it misses
 nothing else.
 */
module Sync {
  import opened Counters
  import opened Backend
  import opened Sequencing
  import opened Diff

  /** Whatever WAIT means, no user's received numbers repeat and no user's sent numbers repeat. */
  lemma ConstrainedReachable(a1: bool, s: State)
    requires Reachable(a1, s)
    ensures Constrained(s.table)
  {
    var acts :| Path(a1, Init(), acts, s);
    BaseForward(a1, Init(), acts, s);
  }

  lemma NoRepeatsReachable(s: State, u: User)
    requires Reachable(true, s)
    ensures DistinctIds(s.table) && NoRepeats(s.table, u)
  {
    Always(s);
    forall m, n | m in s.table && n in s.table && Concerns(m, u) && Concerns(n, u) && Pts(m, u) == Pts(n, u)
      ensures m == n
    {
      StreamUnique(s, m, Shown(m, u), n, Shown(n, u));
    }
  }

  /** The role in which GetDiff would show call c's row to u. */
  function ShownCall(c: Call, u: User): Role {
    if c.receiver == u then Received else Sent
  }

  /** Call c has done its INCR of u, got number v, and can still commit. */
  ghost predicate Pending(s: State, u: User, c: nat, v: int) {
    && c < |s.calls|
    && var role := ShownCall(s.calls[c], u);
       && Party(s.calls[c], role) == u
       && Holds(s.calls[c].phase, role)
       && SlotOf(s.calls[c].phase, role).value == v
       && CanStillCommit(s, c)
  }

  /** A row that appears at or below a durable number was pending for u when the number was read. */
  lemma CursorCompleteness(s: State, t: State, u: User, p: int, m: Message)
    requires Reachable(true, s) && Reaches(true, s, t)
    requires Promised(s, u, p)
    requires m in t.table && m !in s.table && Concerns(m, u) && Pts(m, u) <= p
    ensures Pending(s, u, m.id, Pts(m, u))
  {
    Always(s);
    Later(s, t);
    PromisedIsDurable(s, u, p);
    var role, q := Shown(m, u), Pts(m, u);
    var tag := Replied(m.id, role);
    RowOwner(t, m, role);
    IncrsMonotone(Durable(s), Durable(t), u);
    assert Owns(Durable(s), u, q, tag);
    OwnsMonotone(Durable(s), s.log, u, q, tag);
    var i := OwnerInLog(s.log, u, q);
    assert TagBelongs(s, s.log[i]);
    SameCallLater(s, t, m.id);
    assert RowBelongs(t, m);
    NotYetRow(s, t, m);
    CommitIff(s, m.id);
    assert HasRow(t, m.id);
    assert CanStillCommit(s, m.id);
    HeldValue(s, m.id, role, u, q);
  }

  lemma {:induction false} SamePartiesAlong(s: State, acts: seq<Action>, t: State, c: nat)
    requires Path(true, s, acts, t) && c < |s.calls|
    ensures c < |t.calls| && forall role :: Party(t.calls[c], role) == Party(s.calls[c], role)
    decreases |acts|
  {
    if acts == [] {
    } else {
      StepCall(true, s, acts[0], c);
      SamePartiesAlong(Next(true, s, acts[0]), acts[1..], t, c);
    }
  }

  lemma SameCallLater(s: State, t: State, c: nat)
    requires Reaches(true, s, t) && c < |s.calls|
    ensures c < |t.calls| && t.calls[c].receiver == s.calls[c].receiver && t.calls[c].sender == s.calls[c].sender
  {
    var acts :| Path(true, s, acts, t);
    SamePartiesAlong(s, acts, t, c);
    assert Party(t.calls[c], Received) == Party(s.calls[c], Received);
    assert Party(t.calls[c], Sent) == Party(s.calls[c], Sent);
  }

  lemma IdNamesRow(s: State, i: nat, j: nat)
    requires TableOk(s) && i < |s.table| && j < |s.table|
    ensures s.table[i].id == s.table[j].id ==> i == j
  {
  }

  /** Rows have one id each, so a row new in t has an id without a row in s. */
  lemma NotYetRow(s: State, t: State, m: Message)
    requires Inv(s) && Inv(t) && s.table <= t.table && m in t.table && m !in s.table
    ensures !HasRow(s, m.id)
  {
    var j :| 0 <= j < |t.table| && t.table[j] == m;
    forall i | 0 <= i < |s.table| ensures s.table[i].id != m.id {
      assert s.table[i] == t.table[i] && s.table[i] in s.table;
      IdNamesRow(t, i, j);
    }
  }

  /** A current reply is the number its entry owns in the log. */
  lemma HeldValue(s: State, c: nat, role: Role, u: User, q: int)
    requires Inv(s) && c < |s.calls| && CanStillCommit(s, c) && Holds(s.calls[c].phase, role)
    requires Party(s.calls[c], role) == u && Owns(s.log, u, q, Replied(c, role))
    ensures SlotOf(s.calls[c].phase, role).value == q
  {
    var slot, tag := SlotOf(s.calls[c].phase, role), Replied(c, role);
    assert RoleOk(s, c, role);
    if Settled(s.calls[c].phase) {
      OwnsMonotone(Durable(s), s.log, u, slot.value, tag);
    } else {
      OwnsAt(s.log, slot.offset, u, tag);
    }
    OneTagOneValue(s.log, u, slot.value, q, tag);
  }

  /**
   The documented claim that getDiff recovers every message fails for a row in flight when the
   cursor passed it. Exactly then: some continuation commits a row of u at or below p that was
   not there yet, if and only if a call holds a reply for u at or below p and can still commit.
   */
  lemma CursorMissIff(s: State, u: User, p: int)
    requires Reachable(true, s) && Promised(s, u, p)
    ensures (exists t, m :: Reaches(true, s, t) && m in t.table && m !in s.table && Concerns(m, u) && Pts(m, u) <= p)
       <==> (exists c: nat, v: int :: Pending(s, u, c, v) && v <= p)
  {
    Always(s);
    if c: nat, v: int :| Pending(s, u, c, v) && v <= p {
      var t := CanCommit(s, c);
      Later(s, t);
      var m := MessageOf(c, t.calls[c]);
      var role := ShownCall(s.calls[c], u);
      assert Party(t.calls[c], Received) == Party(s.calls[c], Received);
      assert Party(t.calls[c], role) == Party(s.calls[c], role);
      assert m in t.table && Shown(m, u) == role && Pts(m, u) == v;
      assert m in s.table ==> RowBelongs(s, m);
    }
    forall t, m | Reaches(true, s, t) && m in t.table && m !in s.table && Concerns(m, u) && Pts(m, u) <= p
      ensures Pending(s, u, m.id, Pts(m, u))
    {
      CursorCompleteness(s, t, u, p, m);
    }
  }

  /**
   The loss is real: alice's call holds bob's number 1 while carol's message commits as his number
   2. A bob who reads now moves his cursor to 2, and alice's message then commits below it.
   */
  lemma SkippedRow() returns (s: State, t: State, seen: Message, missed: Message)
    ensures Reachable(true, s) && Promised(s, "bob", 2) && Pending(s, "bob", 0, 1)
    ensures seen in s.table && Concerns(seen, "bob") && Pts(seen, "bob") == 2
    ensures Reaches(true, s, t) && missed in t.table && missed !in s.table
    ensures Concerns(missed, "bob") && Pts(missed, "bob") == 1
  {
    s := TwoCallsForBob();
    Sequencing.Always(s);
    s := Extend(true, s, Replicate(3));
    s := Extend(true, s, WaitAcked(1));
    Sequencing.Always(s);
    InsertCommits(s, 1);
    s := Extend(true, s, Insert(1));
    seen := MessageOf(1, s.calls[1]);
    Sequencing.Always(s);
    assert UserOf(seen, Received) == "bob" && PtsOf(seen, Received) == 2;
    t := CanCommit(s, 0);
    Later(s, t);
    assert Party(t.calls[0], Received) == "bob" && Party(t.calls[0], Role.Sent) == "alice";
    assert Holds(s.calls[0].phase, Received) && SlotOf(t.calls[0].phase, Received) == Slot(1, 0, 1);
    missed := MessageOf(0, t.calls[0]);
    assert forall m :: m in s.table ==> RowBelongs(s, m);
  }

  lemma TwoCallsForBob() returns (s: State)
    ensures Reachable(true, s) && s.table == [] && s.replica == Online(0) && s.epoch == 0 && |s.log| == 3
    ensures s.calls == [Call("alice", "bob", "hi", AtSender(Slot(1, 0, 1))),
                        Call("carol", "bob", "yo", AtWait(Slot(2, 0, 2), Slot(1, 0, 3)))]
  {
    s := Init();
    assert Path(true, s, [], s);
    s := Extend(true, s, Start("alice", "bob", "hi"));
    s := Extend(true, s, Start("carol", "bob", "yo"));
    IncrsAppend([], Entry("bob", Replied(0, Received)), "bob");
    IncrsAppend([], Entry("bob", Replied(0, Received)), "carol");
    assert s.log == [] && [] + [Entry("bob", Replied(0, Received))] == [Entry("bob", Replied(0, Received))];
    s := Extend(true, s, Incr(0, Fresh));
    assert s.log == [Entry("bob", Replied(0, Received))];
    IncrsAppend(s.log, Entry("bob", Replied(1, Received)), "bob");
    IncrsAppend(s.log, Entry("bob", Replied(1, Received)), "carol");
    s := Extend(true, s, Incr(1, Fresh));
    assert s.calls == [Call("alice", "bob", "hi", AtSender(Slot(1, 0, 1))),
                       Call("carol", "bob", "yo", AtSender(Slot(2, 0, 2)))];
    IncrsAppend(s.log, Entry("carol", Replied(1, Role.Sent)), "carol");
    s := Extend(true, s, Incr(1, Fresh));
  }

  // ----- a paging client against a running back end ----------------------------------------

  /** The reads happen in this order during one run from s to t. */
  ghost predicate Timeline(s: State, walk: seq<Read>, t: State)
    decreases |walk|
  {
    if walk == [] then Reaches(true, s, t)
    else Reaches(true, s, walk[0].st) && Timeline(walk[0].st, walk[1..], t)
  }

  lemma {:induction false} TimelineEnds(s: State, walk: seq<Read>, t: State)
    requires Timeline(s, walk, t)
    ensures Reaches(true, s, t)
    decreases |walk|
  {
    if walk == [] {
    } else {
      TimelineEnds(walk[0].st, walk[1..], t);
      ReachesTrans(true, s, walk[0].st, t);
    }
  }

  lemma {:induction false} LastReadReaches(s: State, walk: seq<Read>, t: State)
    requires Timeline(s, walk, t) && walk != []
    ensures Reaches(true, s, walk[|walk| - 1].st) && Reaches(true, walk[|walk| - 1].st, t)
    decreases |walk|
  {
    var rest := walk[1..];
    if rest == [] {
    } else {
      assert rest[|rest| - 1] == walk[|walk| - 1];
      LastReadReaches(walk[0].st, rest, t);
      ReachesTrans(true, s, walk[0].st, walk[|walk| - 1].st);
    }
  }

  /** Every collected row is a row of u above the starting cursor and not above the final one. */
  ghost predicate GoodHarvest(u: User, cursor: int, final: int, rows: seq<Message>, t: State) {
    && StrictlyOrdered(rows, u)
    && (forall m :: m in rows ==> m in t.table && Matches(m, u, cursor) && Pts(m, u) <= final)
  }

  /** Read i passed over m: its row was not there yet and its call was pending. */
  ghost predicate PassedOver(walk: seq<Read>, u: User, m: Message, i: nat) {
    i < |walk| && m !in walk[i].st.table && Pending(walk[i].st, u, m.id, Pts(m, u))
  }

  /** A row the page leaves out although its number is not above the page's last was not there yet. */
  lemma LeftOutLater(read: Read, u: User, cursor: int, m: Message)
    requires IsAnswer(read.st.table, u, cursor, EffectiveLimit(read.limit), read.rows) && read.rows != []
    requires NoRepeats(read.st.table, u)
    requires Matches(m, u, cursor) && Pts(m, u) <= Advance(u, cursor, read.rows) && m !in read.rows
    ensures m !in read.st.table
  {
    var last := read.rows[|read.rows| - 1];
    assert last in read.rows;
  }

  /** The rows a page leaves out and commits later were pending when it was read. */
  lemma FirstReadMisses(u: User, cursor: int, read: Read, t: State)
    requires Reachable(true, read.st) && Reaches(true, read.st, t) && NoRepeats(read.st.table, u)
    requires IsAnswer(read.st.table, u, cursor, EffectiveLimit(read.limit), read.rows) && read.rows != []
    ensures forall m :: m in t.table && Matches(m, u, cursor) && Pts(m, u) <= Advance(u, cursor, read.rows) ==>
              m in read.rows || PassedOver([read], u, m, 0)
  {
    var next, last := Advance(u, cursor, read.rows), read.rows[|read.rows| - 1];
    assert last in read.rows;
    assert Promised(read.st, u, next) by { assert UserOf(last, Shown(last, u)) == u; }
    forall m | m in t.table && Matches(m, u, cursor) && Pts(m, u) <= next && m !in read.rows
      ensures PassedOver([read], u, m, 0)
    {
      LeftOutLater(read, u, cursor, m);
      CursorCompleteness(read.st, t, u, next, m);
    }
  }

  lemma FirstRead(s: State, u: User, cursor: int, read: Read, t: State)
    requires Reachable(true, s) && Reaches(true, s, read.st) && Reaches(true, read.st, t)
    requires IsAnswer(read.st.table, u, cursor, EffectiveLimit(read.limit), read.rows)
    ensures GoodHarvest(u, cursor, Advance(u, cursor, read.rows), read.rows, t)
    ensures cursor <= Advance(u, cursor, read.rows)
    ensures forall m :: m in t.table && Matches(m, u, cursor) && Pts(m, u) <= Advance(u, cursor, read.rows) ==>
              m in read.rows || PassedOver([read], u, m, 0)
  {
    var rows, next := read.rows, Advance(u, cursor, read.rows);
    ReachesTrans(true, Init(), s, read.st);
    Always(read.st);
    Later(read.st, t);
    NoRepeatsReachable(read.st, u);
    AnswerStrict(read.st.table, u, cursor, EffectiveLimit(read.limit), rows);
    if rows != [] {
      assert rows[|rows| - 1] in rows;
      FirstReadMisses(u, cursor, read, t);
    }
  }

  /**
   Sync under concurrency: pages read at any times of any run, with any limits, come out strictly
   ascending, and every row of u up to the final cursor, committed then or later, was collected
   unless some read passed over it while its call was pending.
   */
  lemma {:induction false} SyncWalk(s: State, u: User, cursor: int, walk: seq<Read>, t: State)
    requires Reachable(true, s) && Timeline(s, walk, t) && Walk(u, cursor, walk)
    ensures GoodHarvest(u, cursor, FinalCursor(u, cursor, walk), Collected(walk), t)
    ensures cursor <= FinalCursor(u, cursor, walk)
    ensures forall m :: m in t.table && Matches(m, u, cursor) && Pts(m, u) <= FinalCursor(u, cursor, walk) ==>
              m in Collected(walk) || exists i: nat :: PassedOver(walk, u, m, i)
    decreases |walk|
  {
    if walk == [] {
    } else {
      var read, rest := walk[0], walk[1..];
      var next := Advance(u, cursor, read.rows);
      TimelineEnds(read.st, rest, t);
      FirstRead(s, u, cursor, read, t);
      ReachesTrans(true, Init(), s, read.st);
      SyncWalk(read.st, u, next, rest, t);
      JoinHarvest(u, cursor, next, FinalCursor(u, next, rest), read.rows, Collected(rest), t);
      forall m | m in t.table && Matches(m, u, cursor) && Pts(m, u) <= FinalCursor(u, cursor, walk)
        ensures m in Collected(walk) || exists i: nat :: PassedOver(walk, u, m, i)
      {
        if Pts(m, u) <= next {
          if m !in read.rows { assert PassedOver([read], u, m, 0) && PassedOver(walk, u, m, 0); }
        } else if m !in Collected(rest) {
          var i: nat :| PassedOver(rest, u, m, i);
          assert PassedOver(walk, u, m, i + 1);
        }
      }
    }
  }

  lemma JoinHarvest(u: User, cursor: int, next: int, final: int, xs: seq<Message>, ys: seq<Message>, t: State)
    requires GoodHarvest(u, cursor, next, xs, t) && GoodHarvest(u, next, final, ys, t)
    requires cursor <= next <= final
    ensures GoodHarvest(u, cursor, final, xs + ys, t)
  {
    forall i, j | 0 <= i < |xs| && 0 <= j < |ys| ensures Pts(xs[i], u) < Pts(ys[j], u) {
      assert xs[i] in xs && ys[j] in ys;
    }
  }

  /** With nothing pending for u at any read, the client holds every row up to its cursor, for good. */
  lemma QuietSyncMissesNothing(s: State, u: User, cursor: int, walk: seq<Read>, t: State, m: Message)
    requires Reachable(true, s) && Timeline(s, walk, t) && Walk(u, cursor, walk)
    requires forall i: nat, c: nat, v: int :: 0 <= i < |walk| ==> !Pending(walk[i].st, u, c, v)
    requires m in t.table && Concerns(m, u)
    ensures m in Collected(walk) <==> cursor < Pts(m, u) <= FinalCursor(u, cursor, walk)
  {
    SyncWalk(s, u, cursor, walk, t);
  }
}
