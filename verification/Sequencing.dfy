/**
 What the allocator and the table guarantee over whole runs when WAIT covers both INCRs, and the
 run that shows the guarantee is lost when it does not.
 */
module Sequencing {
  import opened Counters
  import opened Backend

  // ----- runs keep the invariant ---------------------------------------------------------

  /** Along any run: the invariant, the durable log, the table and the calls only grow. */
  lemma {:induction false} Forward(s: State, acts: seq<Action>, t: State)
    requires Inv(s) && Path(true, s, acts, t)
    ensures Inv(t) && Durable(s) <= Durable(t) && s.table <= t.table && |s.calls| <= |t.calls|
    decreases |acts|
  {
    if acts == [] {
    } else {
      StepInv(s, acts[0]);
      StepDurable(true, s, acts[0]);
      Forward(Next(true, s, acts[0]), acts[1..], t);
    }
  }

  lemma Later(s: State, t: State)
    requires Inv(s) && Reaches(true, s, t)
    ensures Inv(t) && Durable(s) <= Durable(t) && s.table <= t.table && |s.calls| <= |t.calls|
  {
    var acts :| Path(true, s, acts, t);
    Forward(s, acts, t);
  }

  lemma Always(s: State)
    requires Reachable(true, s)
    ensures Inv(s)
  {
    Later(Init(), s);
  }

  lemma {:induction false} BaseForward(a1: bool, s: State, acts: seq<Action>, t: State)
    requires Base(s) && Path(a1, s, acts, t)
    ensures Base(t)
    decreases |acts|
  {
    if acts == [] {
    } else {
      StepBase(a1, s, acts[0]);
      BaseForward(a1, Next(a1, s, acts[0]), acts[1..], t);
    }
  }

  /** Two owners of one value of one user are the same INCR. */
  lemma RowOwner(s: State, m: Message, role: Role)
    requires Inv(s) && m in s.table
    ensures Owns(Durable(s), UserOf(m, role), PtsOf(m, role), Replied(m.id, role))
    ensures Owns(s.log, UserOf(m, role), PtsOf(m, role), Replied(m.id, role))
  {
    assert RowOwns(s, m);
    OwnsMonotone(Durable(s), s.log, UserOf(m, role), PtsOf(m, role), Replied(m.id, role));
  }

  lemma Extend(a1: bool, s: State, a: Action) returns (t: State)
    requires Reachable(a1, s) && Enabled(a1, s, a)
    ensures t == Next(a1, s, a) && Reachable(a1, t)
  {
    t := Next(a1, s, a);
    PathOne(a1, s, a);
    ReachesTrans(a1, Init(), s, t);
  }

  // ----- uniqueness ------------------------------------------------------------------------

  /** Rows that own their numbers in the durable log share none. */
  lemma OwnedRowsDiffer(s: State, m: Message, mRole: Role, n: Message, nRole: Role)
    requires Inv(s) && m in s.table && n in s.table
    requires UserOf(m, mRole) == UserOf(n, nRole) && PtsOf(m, mRole) == PtsOf(n, nRole)
    ensures m == n && mRole == nRole
  {
    RowOwner(s, m, mRole);
    RowOwner(s, n, nRole);
    var i :| 0 <= i < |s.table| && s.table[i] == m;
    var j :| 0 <= j < |s.table| && s.table[j] == n;
    assert s.table[i].id == s.table[j].id;
  }

  /** One user's received and sent numbers never repeat, over any run with any failovers. */
  lemma StreamUnique(s: State, m: Message, mRole: Role, n: Message, nRole: Role)
    requires Reachable(true, s) && m in s.table && n in s.table
    requires UserOf(m, mRole) == UserOf(n, nRole) && PtsOf(m, mRole) == PtsOf(n, nRole)
    ensures m == n && mRole == nRole
  {
    Always(s);
    OwnedRowsDiffer(s, m, mRole, n, nRole);
  }

  /** Rows of different calls whose numbers are their own do not clash. */
  lemma OwnersApart(log: seq<Entry>, m: Message, n: Message)
    requires m.id != n.id
    requires forall role :: Owns(log, UserOf(m, role), PtsOf(m, role), Replied(m.id, role))
    requires forall role :: Owns(log, UserOf(n, role), PtsOf(n, role), Replied(n.id, role))
    ensures !Clash(m, n)
  {
    assert Owns(log, UserOf(m, Received), PtsOf(m, Received), Replied(m.id, Received));
    assert Owns(log, UserOf(n, Received), PtsOf(n, Received), Replied(n.id, Received));
    assert Owns(log, UserOf(m, Sent), PtsOf(m, Sent), Replied(m.id, Sent));
    assert Owns(log, UserOf(n, Sent), PtsOf(n, Sent), Replied(n.id, Sent));
  }

  /** With a covering WAIT the UNIQUE constraints never reject: an INSERT commits. */
  lemma InsertCommits(s: State, c: nat)
    requires Inv(s) && Enabled(true, s, Insert(c))
    ensures !Rejected(s.table, MessageOf(c, s.calls[c]))
    ensures Next(true, s, Insert(c)).calls[c].phase.Persisted?
  {
    var row := MessageOf(c, s.calls[c]);
    forall role ensures Owns(Durable(s), UserOf(row, role), PtsOf(row, role), Replied(c, role)) {
      assert RoleOk(s, c, role);
    }
    forall i | 0 <= i < |s.table| ensures !Clash(s.table[i], row) {
      assert RowBelongs(s, s.table[i]) && RowOwns(s, s.table[i]);
      OwnersApart(Durable(s), s.table[i], row);
    }
  }

  // ----- freshness -------------------------------------------------------------------------

  /** In s, number p of user u is promised: committed in a row, or its call's WAIT has succeeded. */
  ghost predicate Promised(s: State, u: User, p: int) {
    || (exists m, role :: m in s.table && UserOf(m, role) == u && PtsOf(m, role) == p)
    || (exists c, role :: 0 <= c < |s.calls| && s.calls[c].phase.AtInsert?
          && Party(s.calls[c], role) == u && SlotOf(s.calls[c].phase, role).value == p)
  }

  lemma PromisedIsDurable(s: State, u: User, p: int)
    requires Inv(s) && Promised(s, u, p)
    ensures 1 <= p <= Counter(Durable(s), u)
  {
    if m, role :| m in s.table && UserOf(m, role) == u && PtsOf(m, role) == p {
      RowOwner(s, m, role);
    } else {
      var c, role :| 0 <= c < |s.calls| && s.calls[c].phase.AtInsert?
          && Party(s.calls[c], role) == u && SlotOf(s.calls[c].phase, role).value == p;
      assert RoleOk(s, c, role);
    }
  }

  /** Every counter read after a promise is at least the promised number, failovers or not. */
  lemma CounterNeverBelow(s: State, t: State, u: User, p: int)
    requires Reachable(true, s) && Reaches(true, s, t) && Promised(s, u, p)
    ensures p <= Counter(t.log, u)
  {
    Always(s);
    Later(s, t);
    PromisedIsDurable(s, u, p);
    IncrsMonotone(Durable(s), Durable(t), u);
    IncrsMonotone(Durable(t), t.log, u);
  }

  /** An INCR that runs after number p was promised returns more than p. */
  lemma Freshness(s: State, t: State, u: User, p: int, c: nat)
    requires Reachable(true, s) && Reaches(true, s, t) && Promised(s, u, p)
    requires Enabled(true, t, Incr(c, Fresh)) && Party(t.calls[c], NextRole(t.calls[c].phase)) == u
    ensures var after := Next(true, t, Incr(c, Fresh));
            SlotOf(after.calls[c].phase, NextRole(t.calls[c].phase)).value > p
  {
    CounterNeverBelow(s, t, u, p);
    IncrsAppend(t.log, Entry(u, Replied(c, NextRole(t.calls[c].phase))), u);
  }

  /**
   A deposed primary still answers reads from the log it had, and from what late INCRs added to it.
   Its answer is at least p whatever they added exactly when it had counted to p while it was live;
   so it does for every number promised by then.
   */
  lemma DeposedReadIff(f: State, u: User, p: int)
    requires Reachable(true, f)
    ensures (forall log :: f.log <= log ==> p <= Counter(log, u)) <==> p <= Counter(f.log, u)
    ensures forall s :: Reachable(true, s) && Reaches(true, s, f) && Promised(s, u, p) ==> p <= Counter(f.log, u)
  {
    forall log | f.log <= log ensures Counter(f.log, u) <= Counter(log, u) { IncrsMonotone(f.log, log, u); }
    if forall log :: f.log <= log ==> p <= Counter(log, u) { assert f.log <= f.log; }
    forall s | Reachable(true, s) && Reaches(true, s, f) && Promised(s, u, p) ensures p <= Counter(f.log, u) {
      CounterNeverBelow(s, f, u, p);
    }
  }

  /** The first p numbers of u, already durable, were not handed to call c. */
  ghost predicate ClearOf(s: State, u: User, p: int, c: nat)
    requires LogOk(s)
  {
    && p <= Counter(Durable(s), u)
    && (forall v, role :: Owns(Durable(s), u, v, Replied(c, role)) ==> p < v)
  }

  lemma ClearOfStays(s: State, t: State, u: User, p: int, c: nat)
    requires LogOk(s) && LogOk(t) && Durable(s) <= Durable(t) && ClearOf(s, u, p, c)
    ensures ClearOf(t, u, p, c)
  {
    IncrsMonotone(Durable(s), Durable(t), u);
    forall v, role | Owns(Durable(t), u, v, Replied(c, role)) ensures p < v {
      if v <= p { assert Owns(Durable(s), u, v, Replied(c, role)); }
    }
  }

  predicate OwnerStarted(s: State, tag: Tag) {
    tag.Benchmark? || tag.call < |s.calls|
  }

  /** A call that has not started owns nothing yet, so every committed number is clear of it. */
  lemma ClearOfNewCall(s: State, m: Message, role: Role, c: nat)
    requires Inv(s) && m in s.table && c >= |s.calls|
    ensures ClearOf(s, UserOf(m, role), PtsOf(m, role), c)
  {
    var u := UserOf(m, role);
    RowOwner(s, m, role);
    var owners := Incrs(Durable(s), u);
    forall k | 0 <= k < |owners| ensures OwnerStarted(s, owners[k]) {
      var i := OwnerInLog(Durable(s), u, k + 1);
      assert TagBelongs(s, s.log[i]);
    }
  }

  /** Real-time order: a call begun after m committed gets higher numbers for every shared user. */
  lemma CommitOrder(s: State, t: State, m: Message, mRole: Role, n: Message, nRole: Role)
    requires Reachable(true, s) && Reaches(true, s, t)
    requires m in s.table && n in t.table && n.id >= |s.calls|
    requires UserOf(m, mRole) == UserOf(n, nRole)
    ensures PtsOf(m, mRole) < PtsOf(n, nRole)
  {
    Always(s);
    Later(s, t);
    ClearOfNewCall(s, m, mRole, n.id);
    ClearOfStays(s, t, UserOf(m, mRole), PtsOf(m, mRole), n.id);
    RowOwner(t, n, nRole);
  }

  // ----- conservation ----------------------------------------------------------------------

  datatype Fate = Committed(role: Role) | InFlight | Burned

  ghost predicate HasRow(s: State, c: nat) {
    exists i :: 0 <= i < |s.table| && s.table[i].id == c
  }

  /** What became of the INCR with this tag, told from the state of its call. */
  ghost function FateOf(s: State, tag: Tag): Fate {
    match tag
    case Benchmark => Burned
    case LostReply(_, _) => Burned
    case Replied(c, role) =>
      if c >= |s.calls| then Burned
      else if s.calls[c].phase.Persisted? || (s.calls[c].phase.Failed? && HasRow(s, c)) then Committed(role)
      else if s.calls[c].phase.Failed? then Burned
      else InFlight
  }

  ghost predicate Carries(s: State, u: User, v: int, role: Role) {
    exists m :: m in s.table && UserOf(m, role) == u && PtsOf(m, role) == v
  }

  /** Every number up to the counter has one owner, and the owner's fate says exactly which row holds it. */
  lemma Conservation(s: State, u: User, v: int, role: Role)
    requires Reachable(true, s) && 1 <= v <= Counter(s.log, u)
    ensures var fate := FateOf(s, Incrs(s.log, u)[v - 1]);
            Carries(s, u, v, role) <==> fate == Committed(role)
  {
    Always(s);
    var tag := Incrs(s.log, u)[v - 1];
    if Carries(s, u, v, role) {
      var m :| m in s.table && UserOf(m, role) == u && PtsOf(m, role) == v;
      RowOwner(s, m, role);
      assert RowBelongs(s, m);
    }
    if FateOf(s, tag) == Committed(role) {
      var i := OwnerInLog(s.log, u, v);
      assert TagBelongs(s, s.log[i]);
      var m := CommittedRow(s, tag.call);
      RowOwner(s, m, role);
      OneTagOneValue(s.log, u, v, PtsOf(m, role), tag);
    }
  }

  lemma CommittedRow(s: State, c: nat) returns (m: Message)
    requires Base(s) && c < |s.calls| && (s.calls[c].phase.Persisted? || HasRow(s, c))
    ensures m in s.table && m.id == c
    ensures forall role :: UserOf(m, role) == Party(s.calls[c], role)
  {
    if s.calls[c].phase.Persisted? {
      m := MessageOf(c, s.calls[c]);
    } else {
      var i :| 0 <= i < |s.table| && s.table[i].id == c;
      m := s.table[i];
    }
    assert RowBelongs(s, m);
  }

  /** A number no row carries is in flight, or was burned by an INCR whose call got no success for it. */
  lemma HolesAreOwned(s: State, u: User, v: int)
    requires Reachable(true, s) && Hole(s, u, v)
    ensures match Incrs(s.log, u)[v - 1]
            case Benchmark => u == BENCHMARK_USER
            case LostReply(_, _) => true
            case Replied(c, _) =>
              c < |s.calls| && !s.calls[c].phase.Persisted? && (s.calls[c].phase.Failed? ==> !HasRow(s, c))
  {
    Conservation(s, u, v, Received);
    Conservation(s, u, v, Sent);
    Always(s);
    var i := OwnerInLog(s.log, u, v);
    assert TagBelongs(s, s.log[i]);
  }

  /** One call up to its WAIT; nothing has been replicated. */
  lemma BothNumbers(a1: bool) returns (s: State)
    ensures Reachable(a1, s) && s.replica == Online(0) && s.epoch == 0 && s.table == []
    ensures s.calls == [Call("alice", "bob", "hi", AtWait(Slot(1, 0, 1), Slot(1, 0, 2)))]
    ensures |s.log| == 2 && Incrs(s.log, "bob") == [Replied(0, Received)] && Incrs(s.log, "alice") == [Replied(0, Role.Sent)]
  {
    s := Init();
    assert Path(a1, s, [], s);
    s := Extend(a1, s, Start("alice", "bob", "hi"));
    IncrsAppend(s.log, Entry("bob", Replied(0, Received)), "bob");
    IncrsAppend(s.log, Entry("bob", Replied(0, Received)), "alice");
    s := Extend(a1, s, Incr(0, Fresh));
    assert s.calls == [Call("alice", "bob", "hi", AtSender(Slot(1, 0, 1)))];
    IncrsAppend(s.log, Entry("alice", Replied(0, Sent)), "alice");
    IncrsAppend(s.log, Entry("alice", Replied(0, Sent)), "bob");
    s := Extend(a1, s, Incr(0, Fresh));
  }

  ghost predicate Hole(s: State, u: User, v: int) {
    1 <= v <= Counter(s.log, u) && !Carries(s, u, v, Received) && !Carries(s, u, v, Sent)
  }

  /** The reply to the first INCR is lost, and the retried INCR draws the next number. */
  lemma LostThenAnswered() returns (s: State)
    ensures Reachable(true, s) && s.replica == Online(0) && s.epoch == 0
    ensures s.calls == [Call("alice", "bob", "hi", AtSender(Slot(2, 0, 2)))] && |s.log| == 2
    ensures Incrs(s.log, "bob") == [LostReply(0, Received), Replied(0, Received)]
  {
    s := Init();
    assert Path(true, s, [], s);
    s := Extend(true, s, Start("alice", "bob", "hi"));
    IncrsAppend(s.log, Entry("bob", LostReply(0, Received)), "bob");
    s := Extend(true, s, Incr(0, Lost));
    IncrsAppend(s.log, Entry("bob", Replied(0, Received)), "bob");
    s := Extend(true, s, Incr(0, Fresh));
  }

  /** A hole owned by a lost reply: the call itself goes on, succeeds, and carries the next number. */
  lemma LostReplyHole() returns (s: State)
    ensures Reachable(true, s) && Hole(s, "bob", 1) && Incrs(s.log, "bob")[0] == LostReply(0, Received)
    ensures |s.calls| == 1 && s.calls[0].phase.Persisted? && Carries(s, "bob", 2, Received)
  {
    s := LostThenAnswered();
    IncrsAppend(s.log, Entry("alice", Replied(0, Role.Sent)), "bob");
    s := Extend(true, s, Incr(0, Fresh));
    s := FinishCall(s);
    Conservation(s, "bob", 1, Received);
    Conservation(s, "bob", 1, Sent);
    Conservation(s, "bob", 2, Received);
  }

  /** A first call with both numbers is replicated, acked and inserted; the log stays as it is. */
  lemma FinishCall(s: State) returns (t: State)
    requires Reachable(true, s) && |s.calls| == 1 && s.calls[0].phase.AtWait? && s.replica == Online(0)
    requires var p := s.calls[0].phase; p.r.epoch == s.epoch && p.s.epoch == s.epoch
    ensures Reachable(true, t) && Reaches(true, s, t) && t.log == s.log
    ensures t.calls == [s.calls[0].(phase := Persisted(s.calls[0].phase.r, s.calls[0].phase.s))]
  {
    Always(s);
    assert RoleOk(s, 0, Received) && RoleOk(s, 0, Sent);
    var full := Extend(true, s, Replicate(|s.log|));
    PathOne(true, s, Replicate(|s.log|));
    var acked := Extend(true, full, WaitAcked(0));
    PathOne(true, full, WaitAcked(0));
    ReachesTrans(true, s, full, acked);
    Always(acked);
    InsertCommits(acked, 0);
    t := Extend(true, acked, Insert(0));
    PathOne(true, acked, Insert(0));
    ReachesTrans(true, s, acked, t);
  }

  /** A number promised after the failover is not counted by the primary deposed in it. */
  lemma DeposedBelow() returns (f: State, s: State)
    ensures Reachable(true, f) && Enabled(true, f, Failover)
    ensures Reachable(true, s) && Reaches(true, Next(true, f, Failover), s)
    ensures Carries(s, "bob", 1, Received) && Promised(s, "bob", 1) && Counter(f.log, "bob") < 1
  {
    f := Init();
    assert Path(true, f, [], f);
    var deposed := Extend(true, f, Failover);
    s := Extend(true, deposed, Resync(0));
    PathOne(true, deposed, Resync(0));
    s := FirstCall(deposed, s);
    var both := s;
    s := FinishCall(both);
    ReachesTrans(true, deposed, both, s);
    Always(s);
    assert UserOf(MessageOf(0, s.calls[0]), Received) == "bob" && PtsOf(MessageOf(0, s.calls[0]), Received) == 1;
  }

  lemma SecondIncr(from: State, s: State) returns (t: State)
    requires Reachable(true, s) && Reaches(true, from, s) && s.log == [Entry("bob", Replied(0, Received))]
    requires s.calls == [Call("alice", "bob", "hi", AtSender(Slot(1, s.epoch, 1)))]
    ensures Reachable(true, t) && Reaches(true, from, t) && t.replica == s.replica && t.epoch == s.epoch
    ensures t.calls == [Call("alice", "bob", "hi", AtWait(Slot(1, s.epoch, 1), Slot(1, s.epoch, 2)))]
  {
    IncrsAppend([], Entry("bob", Replied(0, Received)), "alice");
    assert [] + [Entry("bob", Replied(0, Received))] == s.log;
    IncrsAppend(s.log, Entry("alice", Replied(0, Role.Sent)), "alice");
    t := Extend(true, s, Incr(0, Fresh));
    PathOne(true, s, Incr(0, Fresh));
    ReachesTrans(true, from, s, t);
  }

  /** The first call of an epoch on an empty log, up to its WAIT. */
  lemma FirstCall(from: State, s: State) returns (t: State)
    requires Reachable(true, s) && Reaches(true, from, s) && s.log == [] && s.calls == [] && s.replica == Online(0)
    ensures Reachable(true, t) && Reaches(true, from, t) && t.replica == Online(0)
    ensures t.calls == [Call("alice", "bob", "hi", AtWait(Slot(1, s.epoch, 1), Slot(1, s.epoch, 2)))]
    ensures t.epoch == s.epoch
  {
    var s1 := Extend(true, s, Start("alice", "bob", "hi"));
    PathOne(true, s, Start("alice", "bob", "hi"));
    ReachesTrans(true, from, s, s1);
    IncrsAppend([], Entry("bob", Replied(0, Received)), "bob");
    assert [] + [Entry("bob", Replied(0, Received))] == [Entry("bob", Replied(0, Received))];
    var s2 := Extend(true, s1, Incr(0, Fresh));
    PathOne(true, s1, Incr(0, Fresh));
    ReachesTrans(true, from, s1, s2);
    t := SecondIncr(from, s2);
  }

  /** The benchmark endpoint burns its user's numbers. */
  lemma BenchmarkHole() returns (s: State)
    ensures Reachable(true, s) && Hole(s, BENCHMARK_USER, 1) && Incrs(s.log, BENCHMARK_USER)[0] == Benchmark
  {
    s := Init();
    assert Path(true, s, [], s);
    IncrsAppend(s.log, Entry(BENCHMARK_USER, Benchmark), BENCHMARK_USER);
    s := Extend(true, s, BenchmarkIncr);
    Conservation(s, BENCHMARK_USER, 1, Received);
    Conservation(s, BENCHMARK_USER, 1, Sent);
  }

  /** A hole owned by a call that got Internal: its INSERT was refused after the WAIT succeeded. */
  lemma InternalHole() returns (s: State)
    ensures Reachable(true, s) && Hole(s, "bob", 1)
    ensures Incrs(s.log, "bob")[0] == Replied(0, Received) && |s.calls| == 1 && s.calls[0].phase == Failed(Internal)
  {
    s := BothNumbers(true);
    s := Extend(true, s, Replicate(2));
    s := Extend(true, s, WaitAcked(0));
    s := Extend(true, s, GiveUp(0));
    Conservation(s, "bob", 1, Received);
    Conservation(s, "bob", 1, Sent);
  }

  /** Failover truncates no INCR of a committed row. */
  lemma FailoverKeepsCommitted(s: State, m: Message, role: Role)
    requires Reachable(true, s) && Enabled(true, s, Failover) && m in s.table
    ensures Owns(Next(true, s, Failover).log, UserOf(m, role), PtsOf(m, role), Replied(m.id, role))
  {
    Always(s);
    StepInv(s, Failover);
    RowOwner(Next(true, s, Failover), m, role);
  }

  // ----- which calls can still commit ------------------------------------------------------

  /** Every reply the call holds is from the current epoch, or its WAIT has already succeeded. */
  ghost predicate CanStillCommit(s: State, c: nat)
    requires c < |s.calls|
  {
    match s.calls[c].phase
    case AtReceiver => true
    case AtSender(r) => r.epoch == s.epoch
    case AtWait(r, q) => r.epoch == s.epoch && q.epoch == s.epoch
    case AtInsert(_, _) => true
    case _ => false
  }

  lemma {:induction false} NoComeback(s: State, acts: seq<Action>, t: State, c: nat)
    requires Inv(s) && Path(true, s, acts, t)
    requires c < |s.calls| && !CanStillCommit(s, c) && !HasRow(s, c)
    ensures !HasRow(t, c)
    decreases |acts|
  {
    if acts == [] {
    } else {
      StepInv(s, acts[0]);
      DoomedStays(s, acts[0], c);
      NoComeback(Next(true, s, acts[0]), acts[1..], t, c);
    }
  }

  lemma DoomedStays(s: State, a: Action, c: nat)
    requires LogOk(s) && Enabled(true, s, a)
    requires c < |s.calls| && !CanStillCommit(s, c) && !HasRow(s, c) && forall role :: RoleOk(s, c, role)
    ensures !CanStillCommit(Next(true, s, a), c) && !HasRow(Next(true, s, a), c)
  {
    var t := Next(true, s, a);
    StepRows(true, s, a);
    assert RoleOk(s, c, Received) && RoleOk(s, c, Sent);
    assert Holds(s.calls[c].phase, Received) ==> SlotOf(s.calls[c].phase, Received).epoch <= s.epoch || Settled(s.calls[c].phase);
    forall i | 0 <= i < |t.table| ensures t.table[i].id != c {
      if i < |s.table| { assert t.table[i] == s.table[i]; }
    }
  }

  /** The call's parties and the replies it holds are the same in both states. */
  ghost predicate SameReplies(s: State, t: State, c: nat) {
    && c < |s.calls| && c < |t.calls|
    && (forall role :: Party(t.calls[c], role) == Party(s.calls[c], role))
    && t.calls[c].content == s.calls[c].content
    && (forall role :: Holds(s.calls[c].phase, role) ==>
          Holds(t.calls[c].phase, role) && SlotOf(t.calls[c].phase, role) == SlotOf(s.calls[c].phase, role))
  }

  /** One or two steps that bring a call that can still commit closer to its row. */
  lemma Progress(s: State, c: nat) returns (acts: seq<Action>, t: State)
    requires Inv(s) && c < |s.calls| && CanStillCommit(s, c)
    ensures Path(true, s, acts, t) && SameReplies(s, t, c) && forall a :: a in acts ==> Helps(a, c)
    ensures t.calls[c].phase.Persisted? || CanStillCommit(t, c)
    ensures Rank(t.calls[c].phase) < Rank(s.calls[c].phase)
  {
    var p := s.calls[c].phase;
    if p.AtWait? {
      acts, t := CatchUpAndWait(s, c);
    } else {
      var a := if p.AtInsert? then Insert(c) else Incr(c, Fresh);
      if p.AtInsert? { InsertCommits(s, c); }
      acts, t := [a], Next(true, s, a);
      PathOne(true, s, a);
    }
  }

  /** The replica catches up, by streaming or a full sync, and WAIT is acked. */
  lemma CatchUpAndWait(s: State, c: nat) returns (acts: seq<Action>, t: State)
    requires Inv(s) && c < |s.calls| && CanStillCommit(s, c) && s.calls[c].phase.AtWait?
    ensures Path(true, s, acts, t) && SameReplies(s, t, c) && t.calls[c].phase.AtInsert?
    ensures forall a :: a in acts ==> Helps(a, c)
  {
    assert RoleOk(s, c, Received) && RoleOk(s, c, Sent);
    var sync := if s.replica.Online? then Replicate(|s.log|) else Resync(|s.log|);
    var mid := s.(replica := Online(|s.log|));
    assert Enabled(true, s, sync) && mid == Next(true, s, sync);
    t := Next(true, mid, WaitAcked(c));
    PathOne(true, s, sync);
    PathOne(true, mid, WaitAcked(c));
    PathTrans(true, s, [sync], mid, [WaitAcked(c)], t);
    acts := [sync] + [WaitAcked(c)];
  }

  function Rank(p: Phase): nat {
    match p
    case AtReceiver => 4
    case AtSender(_) => 3
    case AtWait(_, _) => 2
    case AtInsert(_, _) => 1
    case _ => 0
  }

  /** The call's own commands and replication. */
  predicate Helps(a: Action, c: nat) {
    match a
    case Incr(d, _) => d == c
    case WaitAcked(d) => d == c
    case Insert(d) => d == c
    case Replicate(_) => true
    case Resync(_) => true
    case _ => false
  }

  lemma {:induction false} CommitsAlone(s: State, c: nat) returns (acts: seq<Action>, t: State)
    requires Inv(s) && c < |s.calls| && CanStillCommit(s, c)
    ensures Path(true, s, acts, t) && SameReplies(s, t, c) && t.calls[c].phase.Persisted?
    ensures forall a :: a in acts ==> Helps(a, c)
    decreases Rank(s.calls[c].phase)
  {
    var first, mid := Progress(s, c);
    Later(s, mid);
    if mid.calls[c].phase.Persisted? {
      acts, t := first, mid;
    } else {
      var rest;
      rest, t := CommitsAlone(mid, c);
      PathTrans(true, s, first, mid, rest, t);
      acts := first + rest;
    }
  }

  lemma CanCommit(s: State, c: nat) returns (t: State)
    requires Inv(s) && c < |s.calls| && CanStillCommit(s, c)
    ensures Reaches(true, s, t) && SameReplies(s, t, c) && t.calls[c].phase.Persisted?
  {
    var acts;
    acts, t := CommitsAlone(s, c);
  }

  /** A call commits in some continuation exactly when its replies are current or its WAIT is done. */
  lemma CommitIff(s: State, c: nat)
    requires Reachable(true, s) && c < |s.calls| && !HasRow(s, c)
    ensures (exists t :: Reaches(true, s, t) && HasRow(t, c)) <==> CanStillCommit(s, c)
  {
    Always(s);
    if CanStillCommit(s, c) {
      var t := CanCommit(s, c);
      Later(s, t);
      var m := MessageOf(c, t.calls[c]);
      assert m in t.table && m.id == c;
      assert HasRow(t, c);
    } else {
      forall t | Reaches(true, s, t) ensures !HasRow(t, c) {
        var acts :| Path(true, s, acts, t);
        NoComeback(s, acts, t, c);
      }
    }
  }

  // ----- without a covering WAIT -----------------------------------------------------------

  /** A failover between the acked WAIT and the INSERT forgets both numbers of a committed row. */
  lemma ForgottenRow() returns (s: State)
    ensures Reachable(false, s)
    ensures s.log == [] && s.table == [Message(0, "alice", "bob", "hi", 1, 1)] && |s.calls| == 1
  {
    s := BothNumbers(false);
    s := Extend(false, s, WaitAcked(0));
    s := Extend(false, s, Failover);
    s := Extend(false, s, Insert(0));
  }

  /** When WAIT may be acked for other writes, bob gets number 1 twice: once received, once sent. */
  lemma WaitMustCover() returns (s: State, m: Message, n: Message)
    ensures Reachable(false, s) && m in s.table && n in s.table && m != n
    ensures m.receiver == n.sender && m.receiverPts == n.senderPts
  {
    s := ForgottenRow();
    s := Extend(false, s, Start("bob", "carol", "yo"));
    s := Extend(false, s, Incr(1, Fresh));
    assert s.log == [Entry("carol", Replied(1, Received))];
    IncrsAppend(s.log, Entry("bob", Replied(1, Sent)), "bob");
    s := Extend(false, s, Incr(1, Fresh));
    s := Extend(false, s, WaitAcked(1));
    s := Extend(false, s, Insert(1));
    m, n := s.table[0], s.table[1];
  }
}
