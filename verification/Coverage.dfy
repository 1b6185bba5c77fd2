/**
 What exactly WAIT must cover. A call with both replies waits in a reachable state, and WAIT is acked
 whatever the replica holds. `AckIsSafeIff` says when all continuations still keep every user's
 numbers distinct; for replies of the current epoch that is exactly when both INCRs lie in the part
 of the log no failover truncates (`WaitCoverageIff`).
 */
module Coverage {
  import opened Counters
  import opened Backend
  import opened Sequencing
  import opened Diff

  function Other(role: Role): Role {
    if role == Received then Role.Sent else Received
  }

  predicate Waiting(s: State, c: nat) {
    c < |s.calls| && s.calls[c].phase.AtWait?
  }

  /** The row the call will insert. */
  function RowOf(s: State, c: nat): Message
    requires Waiting(s, c)
  {
    MessageOf(c, s.calls[c])
  }

  /** The state after WAIT is acked, whatever the replica holds. */
  function Acked(s: State, c: nat): State
    requires Waiting(s, c)
  {
    Next(false, s, WaitAcked(c))
  }

  ghost predicate Safe(s: State) {
    forall t :: Reaches(true, s, t) ==> StreamsDistinct(t.table)
  }

  /** A message to oneself under one number. */
  predicate SelfClash(m: Message) {
    SameNumber(m, Received, m, Role.Sent)
  }

  /** This INCR's call has, or can still get, a row with the number in the other role. */
  ghost predicate Rival(s: State, m: Message, role: Role, tag: Tag) {
    && tag.Replied? && tag.role != role && tag.call != m.id
    && tag.call < |s.calls| && (HasRow(s, tag.call) || CanStillCommit(s, tag.call))
  }

  /** No other call can get m's number in the other role, where no constraint would stop it. */
  ghost predicate OutOfReach(s: State, m: Message, role: Role)
    requires LogOk(s)
  {
    var u, v := UserOf(m, role), PtsOf(m, role);
    v <= Counter(Durable(s), u) && (v >= 1 ==> !Rival(s, m, role, Incrs(Durable(s), u)[v - 1]))
  }

  // ----- the invariant with one call left out ----------------------------------------------

  /** Everything holds but, perhaps, that call c's numbers are its own. */
  ghost predicate InvBut(s: State, c: nat) {
    && Base(s)
    && (forall d, role :: 0 <= d < |s.calls| && d != c ==> RoleOk(s, d, role))
    && (forall i :: 0 <= i < |s.table| && s.table[i].id != c ==> RowOwns(s, s.table[i]))
  }

  lemma StepInvBut(s: State, a: Action, c: nat)
    requires InvBut(s, c) && Enabled(true, s, a)
    ensures InvBut(Next(true, s, a), c)
  {
    var t := Next(true, s, a);
    StepBase(true, s, a);
    forall d, role | 0 <= d < |t.calls| && d != c ensures RoleOk(t, d, role) { StepRoleOk(s, a, d, role); }
    forall i | 0 <= i < |t.table| && t.table[i].id != c ensures RowOwns(t, t.table[i]) {
      assert t.table[i] in s.table ==> RowOwns(s, t.table[i]);
      StepRowOwns(s, a, t.table[i]);
    }
  }

  /** Acking call c's WAIT disturbs nobody else. */
  lemma AckedInvBut(s: State, c: nat)
    requires Inv(s) && Waiting(s, c)
    ensures InvBut(Acked(s, c), c) && Acked(s, c).table == s.table && Acked(s, c).log == s.log
    ensures Durable(Acked(s, c)) == Durable(s)
  {
    var t := Acked(s, c);
    StepBase(false, s, WaitAcked(c));
    forall d, role | 0 <= d < |t.calls| && d != c ensures RoleOk(t, d, role) { assert RoleOk(s, d, role); }
    forall i | 0 <= i < |t.table| ensures RowOwns(t, t.table[i]) { assert RowOwns(s, s.table[i]); }
  }

  /** Call c has its WAIT behind it, and any row of its own is m. */
  ghost predicate Carrying(s: State, c: nat, m: Message) {
    && c < |s.calls| && m.id == c
    && (s.calls[c].phase.AtInsert? || s.calls[c].phase.Persisted? || s.calls[c].phase.Failed?)
    && (s.calls[c].phase.AtInsert? ==> MessageOf(c, s.calls[c]) == m)
    && (forall i :: 0 <= i < |s.table| && s.table[i].id == c ==> s.table[i] == m)
  }

  lemma StepCarrying(s: State, a: Action, c: nat, m: Message)
    requires Base(s) && Carrying(s, c, m) && Enabled(true, s, a)
    ensures Carrying(Next(true, s, a), c, m)
  {
    var t := Next(true, s, a);
    StepRows(true, s, a);
    StepCall(true, s, a, c);
    forall i | 0 <= i < |t.table| && t.table[i].id == c ensures t.table[i] == m {
      if i < |s.table| { assert t.table[i] == s.table[i]; }
    }
  }

  // ----- out of reach is safe --------------------------------------------------------------

  lemma StepOutOfReach(s: State, a: Action, m: Message, role: Role)
    requires InvBut(s, m.id) && Enabled(true, s, a) && OutOfReach(s, m, role) && LogOk(Next(true, s, a))
    ensures OutOfReach(Next(true, s, a), m, role)
  {
    var t, u, v := Next(true, s, a), UserOf(m, role), PtsOf(m, role);
    StepDurable(true, s, a);
    IncrsMonotone(Durable(s), Durable(t), u);
    if v >= 1 {
      var tag := Incrs(Durable(s), u)[v - 1];
      var i := OwnerInLog(Durable(s), u, v);
      assert TagBelongs(s, s.log[i]);
      if tag.Replied? && tag.role != role && tag.call != m.id { DoomedStays(s, a, tag.call); }
    }
  }

  ghost predicate Shielded(s: State, c: nat, m: Message) {
    && InvBut(s, c) && Carrying(s, c, m)
    && ((Rejected(s.table, m) && !HasRow(s, c)) || (!SelfClash(m) && forall role :: OutOfReach(s, m, role)))
  }

  lemma StepShielded(s: State, a: Action, c: nat, m: Message)
    requires Shielded(s, c, m) && Enabled(true, s, a)
    ensures Shielded(Next(true, s, a), c, m)
  {
    StepInvBut(s, a, c);
    StepCarrying(s, a, c, m);
    if Rejected(s.table, m) && !HasRow(s, c) {
      RejectedStays(s, a, c, m);
    } else {
      forall role ensures OutOfReach(Next(true, s, a), m, role) { StepOutOfReach(s, a, m, role); }
    }
  }

  lemma RejectedStays(s: State, a: Action, c: nat, m: Message)
    requires Carrying(s, c, m) && Rejected(s.table, m) && !HasRow(s, c) && Enabled(true, s, a)
    ensures Rejected(Next(true, s, a).table, m) && !HasRow(Next(true, s, a), c)
  {
    var t := Next(true, s, a);
    StepRows(true, s, a);
    var i :| 0 <= i < |s.table| && Clash(s.table[i], m);
    assert t.table[i] == s.table[i];
    forall j | 0 <= j < |t.table| ensures t.table[j].id != c {
      if j < |s.table| { assert t.table[j] == s.table[j]; }
    }
  }

  lemma {:induction false} PathShielded(s: State, acts: seq<Action>, t: State, c: nat, m: Message)
    requires Shielded(s, c, m) && Path(true, s, acts, t)
    ensures Shielded(t, c, m)
    decreases |acts|
  {
    if acts == [] {
    } else {
      StepShielded(s, acts[0], c, m);
      PathShielded(Next(true, s, acts[0]), acts[1..], t, c, m);
    }
  }

  lemma ShieldedDistinct(s: State, c: nat, m: Message)
    requires Shielded(s, c, m)
    ensures StreamsDistinct(s.table)
  {
    forall i, j, r, q | 0 <= i < |s.table| && 0 <= j < |s.table| && SameNumber(s.table[i], r, s.table[j], q)
      ensures i == j && r == q
    {
      if s.table[i].id == c && s.table[j].id != c {
        NoMeeting(s, m, r, j, q);
      } else if s.table[i].id != c && s.table[j].id == c {
        NoMeeting(s, m, q, i, r);
      } else if s.table[i].id != c {
        assert RowOwns(s, s.table[i]) && RowOwns(s, s.table[j]);
        assert Owns(Durable(s), UserOf(s.table[i], r), PtsOf(s.table[i], r), Replied(s.table[i].id, r));
        assert Owns(Durable(s), UserOf(s.table[j], q), PtsOf(s.table[j], q), Replied(s.table[j].id, q));
      }
    }
  }

  /** A row beside c's own that shares its number stands in the same role, and so would clash. */
  lemma NoMeeting(s: State, m: Message, r: Role, j: nat, q: Role)
    requires Shielded(s, m.id, m) && HasRow(s, m.id) && j < |s.table| && s.table[j].id != m.id
    ensures !SameNumber(m, r, s.table[j], q)
  {
    var n := s.table[j];
    if SameNumber(m, r, n, q) {
      assert RowOwns(s, n) && RowBelongs(s, n);
      assert Owns(Durable(s), UserOf(n, q), PtsOf(n, q), Replied(n.id, q));
      assert OutOfReach(s, m, r) && HasRow(s, n.id);
      var i :| 0 <= i < |s.table| && s.table[i].id == m.id;
      assert r == q && s.table[i] == m;
      assert Clash(m, n) && Clash(n, m);
      assert false;
    }
  }

  lemma ShieldIsSafe(s: State, c: nat)
    requires Inv(s) && Waiting(s, c)
    requires var m := RowOf(s, c); Rejected(s.table, m) || (!SelfClash(m) && forall role :: OutOfReach(s, m, role))
    ensures Safe(Acked(s, c))
  {
    var a, m := Acked(s, c), RowOf(s, c);
    AckedInvBut(s, c);
    assert forall i :: 0 <= i < |s.table| ==> RowBelongs(s, s.table[i]);
    forall role | OutOfReach(s, m, role) ensures OutOfReach(a, m, role) {}
    assert Shielded(a, c, m);
    forall t | Reaches(true, a, t) ensures StreamsDistinct(t.table) {
      var acts :| Path(true, a, acts, t);
      PathShielded(a, acts, t, c, m);
      ShieldedDistinct(t, c, m);
    }
  }

  // ----- within reach is not safe ----------------------------------------------------------

  /** The row is inserted next to another row, or itself, with the same number in another role. */
  lemma InsertMeets(s: State, c: nat, i: nat, r: Role, q: Role)
    requires Waiting(s, c) && !Rejected(s.table, RowOf(s, c)) && i <= |s.table|
    requires SameNumber((s.table + [RowOf(s, c)])[i], r, RowOf(s, c), q) && (i < |s.table| || r != q)
    ensures !Safe(Acked(s, c))
  {
    var a := Acked(s, c);
    var t := Next(true, a, Insert(c));
    PathOne(true, a, Insert(c));
    assert t.table == s.table + [RowOf(s, c)];
    assert SameNumber(t.table[i], r, t.table[|s.table|], q);
    assert !StreamsDistinct(t.table);
  }

  /** The log is cut back to its durable part, and the call's row is inserted all the same. */
  lemma CutAndInsert(s: State, c: nat) returns (t: State)
    requires Inv(s) && Waiting(s, c) && !Rejected(s.table, RowOf(s, c))
    ensures Reaches(true, Acked(s, c), t)
    ensures t.log == Durable(s) && t.replica == Syncing(|t.log|)
    ensures t.table == s.table + [RowOf(s, c)]
  {
    var n := DurableLen(s);
    var a := Acked(s, c);
    var online := a.(replica := Online(n));
    if s.replica.Syncing? {
      assert online == Next(true, a, Resync(n));
      PathOne(true, a, Resync(n));
    } else {
      assert online == a;
      assert Path(true, a, [], a);
    }
    assert Reaches(true, a, online);
    var cut := Next(true, online, Failover);
    PathOne(true, online, Failover);
    ReachesTrans(true, a, online, cut);
    t := Next(true, cut, Insert(c));
    PathOne(true, cut, Insert(c));
    ReachesTrans(true, a, cut, t);
  }

  /** Calls to u that stop after their first INCR raise u's counter to any value. */
  lemma {:induction false} RaiseTo(s: State, u: User, v: nat) returns (t: State)
    requires Counter(s.log, u) <= v
    ensures Reaches(true, s, t) && t == s.(log := t.log, calls := t.calls)
    ensures s.log <= t.log && Counter(t.log, u) == v
    decreases v - Counter(s.log, u)
  {
    if Counter(s.log, u) == v {
      t := s;
      assert Path(true, s, [], s);
    } else {
      var c := |s.calls|;
      var begun := Next(true, s, Start(u + "x", u, ""));
      PathOne(true, s, Start(u + "x", u, ""));
      var next := Next(true, begun, Incr(c, Fresh));
      PathOne(true, begun, Incr(c, Fresh));
      ReachesTrans(true, s, begun, next);
      IncrsAppend(s.log, Entry(u, Replied(c, Received)), u);
      t := RaiseTo(next, u, v);
      ReachesTrans(true, s, next, t);
    }
  }

  /** A new call between two users takes the next number of each and passes a covering WAIT. */
  lemma NewCall(s: State, sender: User, receiver: User) returns (t: State)
    requires s.replica.Syncing? && s.replica.from <= |s.log| && sender != receiver
    ensures Reaches(true, s, t) && t.table == s.table
    ensures |t.calls| == |s.calls| + 1 && t.calls[|s.calls|].phase.AtInsert?
    ensures MessageOf(|s.calls|, t.calls[|s.calls|])
         == Message(|s.calls|, sender, receiver, "", Counter(s.log, sender) + 1, Counter(s.log, receiver) + 1)
  {
    var c := |s.calls|;
    var s1 := Next(true, s, Start(sender, receiver, ""));
    PathOne(true, s, Start(sender, receiver, ""));
    var s2 := Next(true, s1, Incr(c, Fresh));
    PathOne(true, s1, Incr(c, Fresh));
    ReachesTrans(true, s, s1, s2);
    IncrsAppend(s.log, Entry(receiver, Replied(c, Received)), receiver);
    IncrsAppend(s.log, Entry(receiver, Replied(c, Received)), sender);
    var s3 := Next(true, s2, Incr(c, Fresh));
    PathOne(true, s2, Incr(c, Fresh));
    ReachesTrans(true, s, s2, s3);
    IncrsAppend(s2.log, Entry(sender, Replied(c, Role.Sent)), sender);
    t := SyncAndAck(s3, c);
    ReachesTrans(true, s, s3, t);
  }

  lemma SyncAndAck(s: State, c: nat) returns (t: State)
    requires s.replica.Syncing? && s.replica.from <= |s.log| && CurrentWaiting(s, c)
    requires s.calls[c].phase.r.offset <= |s.log| && s.calls[c].phase.s.offset <= |s.log|
    ensures Reaches(true, s, t) && t.table == s.table && |t.calls| == |s.calls|
    ensures t.calls[c] == s.calls[c].(phase := AtInsert(s.calls[c].phase.r, s.calls[c].phase.s))
  {
    var mid := Next(true, s, Resync(|s.log|));
    PathOne(true, s, Resync(|s.log|));
    t := Next(true, mid, WaitAcked(c));
    PathOne(true, mid, WaitAcked(c));
    ReachesTrans(true, s, mid, t);
  }

  /** A number above all durable ones goes to a second holder, who commits it in the other role. */
  lemma SecondHolder(s: State, c: nat, role: Role)
    requires Inv(s) && Waiting(s, c) && !Rejected(s.table, RowOf(s, c)) && !SelfClash(RowOf(s, c))
    requires Counter(Durable(s), UserOf(RowOf(s, c), role)) < PtsOf(RowOf(s, c), role)
    ensures !Safe(Acked(s, c))
  {
    var first := RowOf(s, c);
    var u, v := UserOf(first, role), PtsOf(first, role);
    var w := u + "x";
    var cut := CutAndInsert(s, c);
    var raised := RaiseTo(cut, u, v - 1);
    ReachesTrans(true, Acked(s, c), cut, raised);
    var sender, receiver := if role == Received then u else w, if role == Received then w else u;
    var ready := NewCall(raised, sender, receiver);
    ReachesTrans(true, Acked(s, c), raised, ready);
    var d := |raised.calls|;
    var second := MessageOf(d, ready.calls[d]);
    IncrsMonotone(Durable(s), raised.log, w);
    SecondAccepted(s, first, role, second);
    var t := Next(true, ready, Insert(d));
    PathOne(true, ready, Insert(d));
    ReachesTrans(true, Acked(s, c), ready, t);
    var i := |s.table|;
    assert t.table == s.table + [first] + [second];
    assert t.table[i] == first && t.table[i + 1] == second;
    assert SameNumber(t.table[i], role, t.table[i + 1], Other(role));
    assert !StreamsDistinct(t.table);
  }

  /** The constraints see no rival of the second row: the numbers meet only across roles. */
  lemma SecondAccepted(s: State, first: Message, role: Role, m: Message)
    requires Inv(s) && !SelfClash(first)
    requires var u, v := UserOf(first, role), PtsOf(first, role);
      && UserOf(m, Other(role)) == u && PtsOf(m, Other(role)) == v && Counter(Durable(s), u) < v
      && UserOf(m, role) != u && Counter(Durable(s), UserOf(m, role)) < PtsOf(m, role)
    ensures !Rejected(s.table + [first], m)
  {
    var table := s.table + [first];
    forall i | 0 <= i < |table| ensures !Clash(table[i], m) {
      if i < |s.table| {
        RowOwner(s, s.table[i], Received);
        RowOwner(s, s.table[i], Role.Sent);
      }
    }
  }

  // ----- a rival that commits --------------------------------------------------------------

  /** Another call's progress and the ack of c do not touch each other. */
  lemma {:induction false} AckCommutes(s: State, c: nat, acts: seq<Action>, t: State, d: nat)
    requires Waiting(s, c) && d != c && Path(true, s, acts, t) && forall a :: a in acts ==> Helps(a, d)
    ensures Waiting(t, c) && t.calls[c] == s.calls[c]
    ensures Path(true, Acked(s, c), acts, Acked(t, c))
    ensures forall n :: n in t.table ==> n in s.table || n.id == d
    decreases |acts|
  {
    if acts == [] {
    } else {
      var a, next := acts[0], Next(true, s, acts[0]);
      AckStep(s, c, a, d);
      AckCommutes(next, c, acts[1..], t, d);
    }
  }

  lemma AckStep(s: State, c: nat, a: Action, d: nat)
    requires Waiting(s, c) && d != c && Enabled(true, s, a) && Helps(a, d)
    ensures var next := Next(true, s, a);
      && Waiting(next, c) && next.calls[c] == s.calls[c]
      && Enabled(true, Acked(s, c), a) && Next(true, Acked(s, c), a) == Acked(next, c)
      && forall n :: n in next.table ==> n in s.table || n.id == d
  {
    var next := Next(true, s, a);
    assert Next(true, Acked(s, c), a).calls == Acked(next, c).calls;
  }

  /** The row of the INCR's call carries the number the INCR drew. */
  lemma OwnerCarries(s: State, u: User, v: int, n: Message, q: Role)
    requires Inv(s) && n in s.table && Owns(Durable(s), u, v, Replied(n.id, q))
    ensures UserOf(n, q) == u && PtsOf(n, q) == v
  {
    var i := OwnerInLog(Durable(s), u, v);
    assert TagBelongs(s, s.log[i]) && RowBelongs(s, n);
    RowOwner(s, n, q);
    OneTagOneValue(Durable(s), u, v, PtsOf(n, q), Replied(n.id, q));
  }

  /** The rival's row beside c's: the constraints do not see it. */
  lemma RivalUnseen(s: State, m: Message, role: Role, n: Message, q: Role)
    requires Inv(s) && n in s.table && q != role && !SelfClash(m) && SameNumber(n, q, m, role)
    ensures !Clash(n, m)
  {
    RowOwner(s, n, Received);
    RowOwner(s, n, Role.Sent);
  }

  lemma RivalMeets(s: State, c: nat, role: Role)
    requires Inv(s) && Waiting(s, c) && !Rejected(s.table, RowOf(s, c)) && !SelfClash(RowOf(s, c))
    requires var (u, v) := (UserOf(RowOf(s, c), role), PtsOf(RowOf(s, c), role));
      1 <= v <= Counter(Durable(s), u) && Rival(s, RowOf(s, c), role, Incrs(Durable(s), u)[v - 1])
    ensures !Safe(Acked(s, c))
  {
    var m := RowOf(s, c);
    var u, v := UserOf(m, role), PtsOf(m, role);
    var tag := Incrs(Durable(s), u)[v - 1];
    if HasRow(s, tag.call) {
      var i :| 0 <= i < |s.table| && s.table[i].id == tag.call;
      OwnerCarries(s, u, v, s.table[i], tag.role);
      InsertMeets(s, c, i, tag.role, role);
    } else {
      var acts, t := CommitsAlone(s, tag.call);
      Later(s, t);
      AckCommutes(s, c, acts, t, tag.call);
      RivalCommitted(s, c, role, t, tag);
      var a := Acked(s, c);
      forall x | Reaches(true, Acked(t, c), x) ensures Reaches(true, a, x) { ReachesTrans(true, a, Acked(t, c), x); }
    }
  }

  lemma RivalCommitted(s: State, c: nat, role: Role, t: State, tag: Tag)
    requires Inv(s) && Waiting(s, c) && !Rejected(s.table, RowOf(s, c)) && !SelfClash(RowOf(s, c))
    requires Inv(t) && Waiting(t, c) && t.calls[c] == s.calls[c] && Durable(s) <= Durable(t)
    requires tag.Replied? && tag.role != role && tag.call != c && tag.call < |t.calls| && t.calls[tag.call].phase.Persisted?
    requires Owns(Durable(s), UserOf(RowOf(s, c), role), PtsOf(RowOf(s, c), role), tag)
    requires forall n :: n in t.table ==> n in s.table || n.id == tag.call
    ensures !Safe(Acked(t, c))
  {
    var m, n := RowOf(s, c), MessageOf(tag.call, t.calls[tag.call]);
    assert n in t.table;
    OwnsMonotone(Durable(s), Durable(t), UserOf(m, role), PtsOf(m, role), tag);
    OwnerCarries(t, UserOf(m, role), PtsOf(m, role), n, tag.role);
    forall i | 0 <= i < |t.table| ensures !Clash(t.table[i], m) {
      if t.table[i].id == tag.call {
        OneRowPerCall(t, t.table[i], n);
        RivalUnseen(t, m, role, n, tag.role);
      } else {
        assert t.table[i] in t.table;
      }
    }
    var i :| 0 <= i < |t.table| && t.table[i] == n;
    InsertMeets(t, c, i, tag.role, role);
  }

  lemma OneRowPerCall(s: State, m: Message, n: Message)
    requires Base(s) && m in s.table && n in s.table && m.id == n.id
    ensures m == n
  {
    var i :| 0 <= i < |s.table| && s.table[i] == m;
    var j :| 0 <= j < |s.table| && s.table[j] == n;
    assert s.table[i].id == s.table[j].id;
  }

  /**
   Acking the WAIT of any waiting call keeps every continuation's numbers distinct exactly when its
   INSERT is already bound to fail, or its two numbers differ where it is a message to oneself, both
   lie within the durable part of the log, and neither was drawn there by another call that has, or
   can still get, a row with it in the other role.
   */
  lemma AckIsSafeIff(s: State, c: nat)
    requires Reachable(true, s) && Waiting(s, c) && LogOk(s)
    ensures var m := RowOf(s, c);
      Safe(Acked(s, c)) <==> Rejected(s.table, m) || (!SelfClash(m) && forall role :: OutOfReach(s, m, role))
  {
    Always(s);
    var m := RowOf(s, c);
    if Rejected(s.table, m) || (!SelfClash(m) && forall role :: OutOfReach(s, m, role)) {
      ShieldIsSafe(s, c);
    } else if SelfClash(m) {
      InsertMeets(s, c, |s.table|, Received, Role.Sent);
    } else {
      var role :| !OutOfReach(s, m, role);
      if PtsOf(m, role) > Counter(Durable(s), UserOf(m, role)) {
        SecondHolder(s, c, role);
      } else {
        RivalMeets(s, c, role);
      }
    }
  }

  // ----- replies of the current epoch ------------------------------------------------------

  /** c has both numbers, from the current epoch, and waits for WAIT. */
  ghost predicate CurrentWaiting(s: State, c: nat) {
    Waiting(s, c) && s.calls[c].phase.r.epoch == s.epoch && s.calls[c].phase.s.epoch == s.epoch
  }

  ghost predicate InDurable(s: State, c: nat)
    requires CurrentWaiting(s, c)
  {
    s.calls[c].phase.r.offset <= DurableLen(s) && s.calls[c].phase.s.offset <= DurableLen(s)
  }

  /** The waiting call's own number is owned by its own entry of the log. */
  lemma HeldOwns(s: State, c: nat, role: Role)
    requires Inv(s) && CurrentWaiting(s, c)
    ensures Owns(s.log, UserOf(RowOf(s, c), role), PtsOf(RowOf(s, c), role), Replied(c, role))
  {
    assert RoleOk(s, c, role);
    OwnsAt(s.log, SlotOf(s.calls[c].phase, role).offset, Party(s.calls[c], role), Replied(c, role));
  }

  lemma NothingRejects(s: State, c: nat)
    requires Inv(s) && CurrentWaiting(s, c)
    ensures !Rejected(s.table, RowOf(s, c)) && !SelfClash(RowOf(s, c))
  {
    forall role
      ensures Owns(s.log, UserOf(RowOf(s, c), role), PtsOf(RowOf(s, c), role), Replied(c, role)) { HeldOwns(s, c, role); }
    forall i | 0 <= i < |s.table| ensures !Clash(s.table[i], RowOf(s, c)) {
      var n := s.table[i];
      assert RowBelongs(s, n);
      forall role ensures Owns(s.log, UserOf(n, role), PtsOf(n, role), Replied(n.id, role)) { RowOwner(s, n, role); }
      OwnersApart(s.log, n, RowOf(s, c));
    }
  }

  lemma DurableSlot(s: State, slot: Slot, u: User, tag: Tag)
    requires LogOk(s) && SlotOk(s, slot, u, tag) && slot.epoch == s.epoch && slot.offset <= DurableLen(s)
    ensures Owns(Durable(s), u, slot.value, tag)
  {
    assert Durable(s)[..slot.offset] == s.log[..slot.offset];
    OwnsAt(Durable(s), slot.offset, u, tag);
  }

  lemma DurableEntry(s: State, c: nat, role: Role)
    requires Inv(s) && CurrentWaiting(s, c) && SlotOf(s.calls[c].phase, role).offset <= DurableLen(s)
    ensures OutOfReach(s, RowOf(s, c), role)
  {
    assert RoleOk(s, c, role);
    DurableSlot(s, SlotOf(s.calls[c].phase, role), Party(s.calls[c], role), Replied(c, role));
  }

  /** Beyond the durable part a number is above all that failover keeps. */
  lemma ExposedAbove(s: State, slot: Slot, u: User, tag: Tag)
    requires LogOk(s) && SlotOk(s, slot, u, tag) && slot.epoch == s.epoch && slot.offset > DurableLen(s)
    ensures Counter(Durable(s), u) < slot.value
  {
    var before := s.log[..slot.offset - 1];
    assert s.log[..slot.offset] == before + [s.log[slot.offset - 1]];
    IncrsAppend(before, s.log[slot.offset - 1], u);
    assert Durable(s) <= before;
    IncrsMonotone(Durable(s), before, u);
  }

  lemma ExposedEntry(s: State, c: nat, role: Role)
    requires Inv(s) && CurrentWaiting(s, c) && SlotOf(s.calls[c].phase, role).offset > DurableLen(s)
    ensures !OutOfReach(s, RowOf(s, c), role)
  {
    assert RoleOk(s, c, role);
    ExposedAbove(s, SlotOf(s.calls[c].phase, role), Party(s.calls[c], role), Replied(c, role));
  }

  /** For replies of the current epoch: exactly when both INCRs are in the part no failover truncates. */
  lemma WaitCoverageIff(s: State, c: nat)
    requires Reachable(true, s) && CurrentWaiting(s, c)
    ensures Safe(Acked(s, c)) <==> InDurable(s, c)
  {
    Always(s);
    AckIsSafeIff(s, c);
    NothingRejects(s, c);
    if InDurable(s, c) {
      forall role ensures OutOfReach(s, RowOf(s, c), role) { DurableEntry(s, c, role); }
    } else {
      ExposedEntry(s, c, if s.calls[c].phase.r.offset > DurableLen(s) then Received else Role.Sent);
    }
  }

  /** A failover between the INCRs and the WAIT: acking is unsafe if it lost them, and harmless if not. */
  lemma EarlierReplies() returns (lost: State, kept: State)
    ensures Reachable(true, lost) && Waiting(lost, 0) && lost.calls[0].phase.r.epoch < lost.epoch
    ensures Reachable(true, kept) && Waiting(kept, 0) && kept.calls[0].phase.r.epoch < kept.epoch
    ensures !Safe(Acked(lost, 0)) && Safe(Acked(kept, 0))
  {
    var s := BothNumbers(true);
    lost := Extend(true, s, Failover);
    assert !OutOfReach(lost, RowOf(lost, 0), Received);
    kept := Extend(true, s, Replicate(2));
    kept := Extend(true, kept, Failover);
    Always(lost);
    Always(kept);
    assert kept.log == s.log && Durable(kept) == s.log;
    AckIsSafeIff(lost, 0);
    AckIsSafeIff(kept, 0);
  }
}
