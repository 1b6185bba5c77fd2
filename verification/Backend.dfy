/**
 The persistence back end as a step machine: the Redis primary and its one replica, every
 PersistMessage call in progress, and the messages table.

 A run is any interleaving of the actions below, so calls overlap freely, stop anywhere, lose
 replies, and see any number of failovers. The parameter `a1` switches on the assumption that a
 successful WAIT covers both INCRs of its call in the current epoch.
 */
module Backend {
  import opened Counters

  /** A row of the messages table, and the PersistedMessage sent for it. Call numbers stand for UUIDs. */
  datatype Message = Message(id: nat, sender: User, receiver: User, content: string,
                             senderPts: int, receiverPts: int)

  /** Online: the replica holds the log up to `acked`. Syncing: its full sync covers at least `from`. */
  datatype Replica = Online(acked: nat) | Syncing(from: nat)

  /** The reply to one INCR: its value, the epoch that answered, and the log length it produced. */
  datatype Slot = Slot(value: int, epoch: nat, offset: nat)

  /** The status a failed call returns, or would have returned had it not crashed. */
  datatype Code = Unavailable | Internal

  datatype Phase =
    | AtReceiver
    | AtSender(r: Slot)
    | AtWait(r: Slot, s: Slot)
    | AtInsert(r: Slot, s: Slot)
    | Persisted(r: Slot, s: Slot)
    | Failed(code: Code)

  datatype Call = Call(sender: User, receiver: User, content: string, phase: Phase)

  datatype State = State(log: seq<Entry>, replica: Replica, epoch: nat,
                         calls: seq<Call>, table: seq<Message>)

  /** How one INCR ends: answered, applied with its reply lost, or answered by a deposed primary. */
  datatype Answer = Fresh | Lost | Stale(value: int)

  datatype Action =
    | Start(sender: User, receiver: User, content: string)
    | Incr(call: nat, answer: Answer)
    | WaitAcked(call: nat)
    | Insert(call: nat)
    | InsertLost(call: nat)
    | GiveUp(call: nat)
    | BenchmarkIncr
    | Replicate(upTo: nat)
    | Disconnect
    | Resync(upTo: nat)
    | Failover

  /** The one user the benchmark endpoint increments. */
  const BENCHMARK_USER := "benchmark-user"

  function Init(): State {
    State([], Online(0), 0, [], [])
  }

  // ----- roles ---------------------------------------------------------------------------

  function UserOf(m: Message, role: Role): User {
    if role == Received then m.receiver else m.sender
  }

  function PtsOf(m: Message, role: Role): int {
    if role == Received then m.receiverPts else m.senderPts
  }

  function Party(c: Call, role: Role): User {
    if role == Received then c.receiver else c.sender
  }

  predicate Holds(p: Phase, role: Role) {
    match p
    case AtReceiver => false
    case AtSender(_) => role == Received
    case Failed(_) => false
    case _ => true
  }

  function SlotOf(p: Phase, role: Role): Slot
    requires Holds(p, role)
  {
    if role == Received then p.r else p.s
  }

  /** The role whose INCR the call issues next. */
  function NextRole(p: Phase): Role
    requires p.AtReceiver? || p.AtSender?
  {
    if p.AtReceiver? then Received else Sent
  }

  function Filled(p: Phase, slot: Slot): Phase
    requires p.AtReceiver? || p.AtSender?
  {
    if p.AtReceiver? then AtSender(slot) else AtWait(p.r, slot)
  }

  /** The row a call inserts, and the PersistedMessage it returns. */
  function MessageOf(id: nat, c: Call): Message
    requires Holds(c.phase, Sent)
  {
    Message(id, c.sender, c.receiver, c.content, c.phase.s.value, c.phase.r.value)
  }

  // ----- the table's constraints -----------------------------------------------------------

  /** uniq_receiver_pts or uniq_sender_pts rejects the second of two such rows. */
  predicate Clash(m: Message, n: Message) {
    || (m.receiver == n.receiver && m.receiverPts == n.receiverPts)
    || (m.sender == n.sender && m.senderPts == n.senderPts)
  }

  predicate Rejected(table: seq<Message>, m: Message) {
    exists i :: 0 <= i < |table| && Clash(table[i], m)
  }

  // ----- steps -----------------------------------------------------------------------------

  /** The log up to which no failover can truncate. */
  function DurableLen(s: State): nat {
    match s.replica
    case Online(n) => n
    case Syncing(n) => n
  }

  function Covered(s: State, slot: Slot): bool {
    && slot.epoch == s.epoch
    && s.replica.Online?
    && slot.offset <= s.replica.acked
  }

  predicate Enabled(a1: bool, s: State, a: Action) {
    match a
    case Start(_, _, _) => true
    case Incr(c, answer) =>
      && c < |s.calls|
      && (s.calls[c].phase.AtReceiver? || s.calls[c].phase.AtSender?)
      && (answer.Stale? ==> s.epoch > 0)
    case WaitAcked(c) =>
      && c < |s.calls| && s.calls[c].phase.AtWait?
      && (a1 ==> Covered(s, s.calls[c].phase.r) && Covered(s, s.calls[c].phase.s))
    case Insert(c) => c < |s.calls| && s.calls[c].phase.AtInsert?
    case InsertLost(c) => c < |s.calls| && s.calls[c].phase.AtInsert?
    case GiveUp(c) => c < |s.calls| && !s.calls[c].phase.Persisted? && !s.calls[c].phase.Failed?
    case BenchmarkIncr => true
    case Replicate(n) => s.replica.Online? && s.replica.acked <= n <= |s.log|
    case Disconnect => s.replica.Online?
    case Resync(n) => s.replica.Syncing? && s.replica.from <= n <= |s.log|
    case Failover => s.replica.Online? && s.replica.acked <= |s.log|
  }

  function WithPhase(s: State, c: nat, p: Phase): State
    requires c < |s.calls|
  {
    s.(calls := s.calls[c := s.calls[c].(phase := p)])
  }

  function AfterIncr(s: State, c: nat, answer: Answer): State
    requires c < |s.calls| && (s.calls[c].phase.AtReceiver? || s.calls[c].phase.AtSender?)
    requires answer.Stale? ==> s.epoch > 0
  {
    var call := s.calls[c];
    var role := NextRole(call.phase);
    var u := Party(call, role);
    match answer
    case Fresh =>
      var log := s.log + [Entry(u, Replied(c, role))];
      WithPhase(s, c, Filled(call.phase, Slot(Counter(log, u), s.epoch, |log|))).(log := log)
    case Lost => s.(log := s.log + [Entry(u, LostReply(c, role))])
    case Stale(v) => WithPhase(s, c, Filled(call.phase, Slot(v, s.epoch - 1, 0)))
  }

  function AfterInsert(s: State, c: nat, replied: bool): State
    requires c < |s.calls| && s.calls[c].phase.AtInsert?
  {
    var p := s.calls[c].phase;
    var row := MessageOf(c, s.calls[c]);
    if Rejected(s.table, row) then WithPhase(s, c, Failed(if replied then Unavailable else Internal))
    else WithPhase(s, c, if replied then Persisted(p.r, p.s) else Failed(Internal)).(table := s.table + [row])
  }

  function Next(a1: bool, s: State, a: Action): State
    requires Enabled(a1, s, a)
  {
    match a
    case Start(sender, receiver, content) =>
      s.(calls := s.calls + [Call(sender, receiver, content, AtReceiver)])
    case Incr(c, answer) => AfterIncr(s, c, answer)
    case WaitAcked(c) => WithPhase(s, c, AtInsert(s.calls[c].phase.r, s.calls[c].phase.s))
    case Insert(c) => AfterInsert(s, c, true)
    case InsertLost(c) => AfterInsert(s, c, false)
    case GiveUp(c) => WithPhase(s, c, Failed(if s.calls[c].phase.AtInsert? then Internal else Unavailable))
    case BenchmarkIncr => s.(log := s.log + [Entry(BENCHMARK_USER, Benchmark)])
    case Replicate(n) => s.(replica := Online(n))
    case Disconnect => s.(replica := Syncing(s.replica.acked))
    case Resync(n) => s.(replica := Online(n))
    case Failover =>
      s.(log := s.log[..s.replica.acked], replica := Syncing(s.replica.acked), epoch := s.epoch + 1)
  }

  /** The actions take s to t. */
  ghost predicate Path(a1: bool, s: State, acts: seq<Action>, t: State)
    decreases |acts|
  {
    if acts == [] then t == s
    else Enabled(a1, s, acts[0]) && Path(a1, Next(a1, s, acts[0]), acts[1..], t)
  }

  ghost predicate Reaches(a1: bool, s: State, t: State) {
    exists acts :: Path(a1, s, acts, t)
  }

  ghost predicate Reachable(a1: bool, s: State) {
    Reaches(a1, Init(), s)
  }

  lemma {:induction false} PathTrans(a1: bool, s: State, xs: seq<Action>, t: State, ys: seq<Action>, u: State)
    requires Path(a1, s, xs, t) && Path(a1, t, ys, u)
    ensures Path(a1, s, xs + ys, u)
    decreases |xs|
  {
    if xs == [] {
      assert xs + ys == ys;
    } else {
      PathTrans(a1, Next(a1, s, xs[0]), xs[1..], t, ys, u);
      assert (xs + ys)[0] == xs[0] && (xs + ys)[1..] == xs[1..] + ys;
    }
  }

  lemma PathOne(a1: bool, s: State, a: Action)
    requires Enabled(a1, s, a)
    ensures Path(a1, s, [a], Next(a1, s, a))
  {
    assert [a][1..] == [];
  }

  lemma ReachesTrans(a1: bool, s: State, t: State, u: State)
    requires Reaches(a1, s, t) && Reaches(a1, t, u)
    ensures Reaches(a1, s, u)
  {
    var xs :| Path(a1, s, xs, t);
    var ys :| Path(a1, t, ys, u);
    PathTrans(a1, s, xs, t, ys, u);
  }

  // ----- what every step keeps -------------------------------------------------------------

  function Durable(s: State): seq<Entry>
    requires DurableLen(s) <= |s.log|
  {
    s.log[..DurableLen(s)]
  }

  ghost predicate TagBelongs(s: State, e: Entry) {
    match e.tag
    case Replied(c, role) =>
      && c < |s.calls|
      && e.user == Party(s.calls[c], role)
      && !s.calls[c].phase.AtReceiver?
      && (s.calls[c].phase.AtSender? ==> role == Received)
    case LostReply(c, role) => c < |s.calls| && e.user == Party(s.calls[c], role)
    case Benchmark => e.user == BENCHMARK_USER
  }

  ghost predicate LogOk(s: State) {
    && DurableLen(s) <= |s.log|
    && (forall i :: 0 <= i < |s.log| ==> TagBelongs(s, s.log[i]))
    && (forall i, j :: 0 <= i < j < |s.log| && s.log[i].tag.Replied? ==> s.log[i].tag != s.log[j].tag)
  }

  ghost predicate RowBelongs(s: State, m: Message) {
    && m.id < |s.calls|
    && m.sender == s.calls[m.id].sender
    && m.receiver == s.calls[m.id].receiver
    && m.content == s.calls[m.id].content
    && (s.calls[m.id].phase.Persisted? || s.calls[m.id].phase.Failed?)
  }

  ghost predicate TableOk(s: State) {
    && (forall i :: 0 <= i < |s.table| ==> RowBelongs(s, s.table[i]))
    && (forall i, j :: 0 <= i < j < |s.table| ==> s.table[i].id != s.table[j].id)
    && (forall i, j :: 0 <= i < j < |s.table| ==> !Clash(s.table[i], s.table[j]))
    && (forall c :: 0 <= c < |s.calls| && s.calls[c].phase.Persisted? ==> MessageOf(c, s.calls[c]) in s.table)
  }

  /** An INCR reply of the current epoch names its entry in the live log. */
  ghost predicate SlotOk(s: State, slot: Slot, u: User, tag: Tag) {
    slot.epoch <= s.epoch &&
    (slot.epoch == s.epoch ==>
      && 0 < slot.offset <= |s.log|
      && s.log[slot.offset - 1] == Entry(u, tag)
      && slot.value == Counter(s.log[..slot.offset], u))
  }

  /** WAIT has succeeded and the call has not failed since. */
  predicate Settled(p: Phase) {
    p.AtInsert? || p.Persisted?
  }

  ghost predicate RoleOk(s: State, c: nat, role: Role)
    requires LogOk(s) && c < |s.calls|
  {
    var call := s.calls[c];
    Holds(call.phase, role) ==>
      var slot := SlotOf(call.phase, role);
      if Settled(call.phase)
      then Owns(Durable(s), Party(call, role), slot.value, Replied(c, role))
      else SlotOk(s, slot, Party(call, role), Replied(c, role))
  }

  ghost predicate RowOwns(s: State, m: Message)
    requires LogOk(s)
  {
    forall role :: Owns(Durable(s), UserOf(m, role), PtsOf(m, role), Replied(m.id, role))
  }

  /** What holds in every run, whatever WAIT means. */
  ghost predicate Base(s: State) {
    LogOk(s) && TableOk(s)
  }

  /** What a covering WAIT adds: committed numbers sit in the part of the log no failover truncates. */
  ghost predicate Inv(s: State) {
    && Base(s)
    && (forall c, role :: 0 <= c < |s.calls| ==> RoleOk(s, c, role))
    && (forall i :: 0 <= i < |s.table| ==> RowOwns(s, s.table[i]))
  }

  lemma InitInv()
    ensures Inv(Init())
  {
  }

  /** Steps never change a call's parties or a reply it holds, and WAIT alone settles it. */
  lemma StepCall(a1: bool, s: State, a: Action, c: nat)
    requires Enabled(a1, s, a) && c < |s.calls|
    ensures var t := Next(a1, s, a);
      && c < |t.calls|
      && (forall role :: Party(t.calls[c], role) == Party(s.calls[c], role))
      && t.calls[c].content == s.calls[c].content
      && (forall role :: Holds(s.calls[c].phase, role) && Holds(t.calls[c].phase, role) ==>
            SlotOf(t.calls[c].phase, role) == SlotOf(s.calls[c].phase, role))
      && (Settled(s.calls[c].phase) && !t.calls[c].phase.Failed? ==> Settled(t.calls[c].phase))
      && (Settled(t.calls[c].phase) && !Settled(s.calls[c].phase) ==>
            a == WaitAcked(c) && s.calls[c].phase.AtWait?)
      && (s.calls[c].phase.Persisted? || s.calls[c].phase.Failed? ==> t.calls[c] == s.calls[c])
      && (forall role :: Holds(t.calls[c].phase, role) && !Holds(s.calls[c].phase, role) ==>
            a.Incr? && a.call == c && !a.answer.Lost? && role == NextRole(s.calls[c].phase))
  {
  }

  /** A step keeps a prefix of the log and may append one entry of a call that has begun. */
  lemma StepLog(a1: bool, s: State, a: Action)
    requires Enabled(a1, s, a) && DurableLen(s) <= |s.log|
    ensures var t := Next(a1, s, a);
      && DurableLen(s) <= DurableLen(t) <= |t.log|
      && (t.log <= s.log || (|t.log| == |s.log| + 1 && s.log <= t.log))
      && (t.epoch == s.epoch ==> s.log <= t.log)
      && t.log[..DurableLen(s)] == s.log[..DurableLen(s)]
  {
  }

  lemma StepTag(a1: bool, s: State, a: Action, e: Entry)
    requires Enabled(a1, s, a) && TagBelongs(s, e)
    ensures TagBelongs(Next(a1, s, a), e)
  {
    if !e.tag.Benchmark? { StepCall(a1, s, a, e.tag.call); }
  }

  lemma StepNewTag(a1: bool, s: State, a: Action)
    requires LogOk(s) && Enabled(a1, s, a) && |Next(a1, s, a).log| > |s.log|
    ensures var t := Next(a1, s, a);
            var e := t.log[|s.log|];
            TagBelongs(t, e) && (e.tag.Replied? ==> !TagBelongs(s, e))
  {
  }

  lemma StepLogOk(a1: bool, s: State, a: Action)
    requires LogOk(s) && Enabled(a1, s, a)
    ensures LogOk(Next(a1, s, a))
  {
    var t := Next(a1, s, a);
    StepLog(a1, s, a);
    forall i | 0 <= i < |t.log| ensures TagBelongs(t, t.log[i]) {
      if i < |s.log| {
        assert t.log[i] == s.log[i];
        StepTag(a1, s, a, s.log[i]);
      } else {
        StepNewTag(a1, s, a);
      }
    }
    StepTagsOnce(a1, s, a);
  }

  lemma StepTagsOnce(a1: bool, s: State, a: Action)
    requires LogOk(s) && Enabled(a1, s, a)
    ensures var t := Next(a1, s, a);
      forall i, j :: 0 <= i < j < |t.log| && t.log[i].tag.Replied? ==> t.log[i].tag != t.log[j].tag
  {
    var t := Next(a1, s, a);
    StepLog(a1, s, a);
    forall i, j | 0 <= i < j < |t.log| && t.log[i].tag.Replied? ensures t.log[i].tag != t.log[j].tag {
      assert t.log[i] == s.log[i] && TagBelongs(s, s.log[i]);
      if j == |s.log| {
        StepNewTag(a1, s, a);
        StepTag(a1, s, a, s.log[i]);
      } else {
        assert t.log[j] == s.log[j];
      }
    }
  }

  /** The only row a step can add is the one of a call whose WAIT has succeeded. */
  lemma StepRows(a1: bool, s: State, a: Action)
    requires Enabled(a1, s, a)
    ensures var t := Next(a1, s, a);
      && s.table <= t.table && |t.table| <= |s.table| + 1
      && (|t.table| > |s.table| ==>
            var m := t.table[|s.table|];
            && m.id < |s.calls| && s.calls[m.id].phase.AtInsert? && m == MessageOf(m.id, s.calls[m.id])
            && !Rejected(s.table, m) && RowBelongs(t, m))
  {
  }

  /** A call succeeds in the step that adds its row. */
  lemma StepPersisted(a1: bool, s: State, a: Action, c: nat)
    requires Enabled(a1, s, a) && c < |Next(a1, s, a).calls| && Next(a1, s, a).calls[c].phase.Persisted?
    ensures c < |s.calls|
    ensures s.calls[c].phase.Persisted? || MessageOf(c, Next(a1, s, a).calls[c]) in Next(a1, s, a).table
  {
  }

  lemma StepTableOk(a1: bool, s: State, a: Action)
    requires TableOk(s) && Enabled(a1, s, a)
    ensures TableOk(Next(a1, s, a))
  {
    var t := Next(a1, s, a);
    StepRows(a1, s, a);
    RowsStayOk(s, t, a1, a);
    forall c | 0 <= c < |t.calls| && t.calls[c].phase.Persisted? ensures MessageOf(c, t.calls[c]) in t.table {
      StepPersisted(a1, s, a, c);
      if s.calls[c].phase.Persisted? {
        StepCall(a1, s, a, c);
        assert MessageOf(c, s.calls[c]) in s.table;
      }
    }
  }

  lemma RowsStayOk(s: State, t: State, a1: bool, a: Action)
    requires TableOk(s) && Enabled(a1, s, a) && t == Next(a1, s, a)
    ensures forall i :: 0 <= i < |t.table| ==> RowBelongs(t, t.table[i])
    ensures forall i, j :: 0 <= i < j < |t.table| ==> t.table[i].id != t.table[j].id && !Clash(t.table[i], t.table[j])
  {
    StepRows(a1, s, a);
    forall i | 0 <= i < |t.table| ensures RowBelongs(t, t.table[i]) {
      if i < |s.table| {
        assert RowBelongs(s, s.table[i]);
        StepCall(a1, s, a, s.table[i].id);
      }
    }
    forall i, j | 0 <= i < j < |t.table| ensures t.table[i].id != t.table[j].id && !Clash(t.table[i], t.table[j]) {
      assert t.table[i] == s.table[i] && RowBelongs(s, s.table[i]);
      if j < |s.table| { assert t.table[j] == s.table[j]; }
    }
  }

  /** The durable part of the log is append-only, across failovers too. */
  lemma StepDurable(a1: bool, s: State, a: Action)
    requires LogOk(s) && Enabled(a1, s, a)
    ensures LogOk(Next(a1, s, a))
    ensures Durable(s) <= Durable(Next(a1, s, a))
    ensures s.epoch == Next(a1, s, a).epoch ==> s.log <= Next(a1, s, a).log
  {
    StepLogOk(a1, s, a);
  }

  /** A slot stays good while its epoch lasts, and says nothing afterwards. */
  lemma SlotStays(a1: bool, s: State, a: Action, slot: Slot, u: User, tag: Tag)
    requires LogOk(s) && Enabled(a1, s, a) && SlotOk(s, slot, u, tag)
    ensures SlotOk(Next(a1, s, a), slot, u, tag)
  {
    var t := Next(a1, s, a);
    StepDurable(a1, s, a);
    if t.epoch == s.epoch && slot.epoch == s.epoch {
      assert t.log[..slot.offset] == s.log[..slot.offset];
    }
  }

  /** The reply to a fresh INCR names the entry it appended. */
  lemma FreshSlotOk(a1: bool, s: State, c: nat)
    requires Enabled(a1, s, Incr(c, Fresh))
    ensures var t := Next(a1, s, Incr(c, Fresh));
            var role := NextRole(s.calls[c].phase);
            && Holds(t.calls[c].phase, role)
            && SlotOk(t, SlotOf(t.calls[c].phase, role), Party(s.calls[c], role), Replied(c, role))
  {
    var t := Next(a1, s, Incr(c, Fresh));
    assert t.log[..|t.log|] == t.log;
  }

  lemma HeldRoleStays(s: State, t: State, c: nat, role: Role)
    requires LogOk(s) && LogOk(t) && Durable(s) <= Durable(t)
    requires c < |s.calls| && c < |t.calls| && Party(s.calls[c], role) == Party(t.calls[c], role)
    requires Holds(s.calls[c].phase, role) && Holds(t.calls[c].phase, role)
    requires SlotOf(s.calls[c].phase, role) == SlotOf(t.calls[c].phase, role)
    requires RoleOk(s, c, role)
    requires Settled(s.calls[c].phase) ==> Settled(t.calls[c].phase)
    requires Settled(t.calls[c].phase) && !Settled(s.calls[c].phase) ==> Covered(s, SlotOf(s.calls[c].phase, role))
    requires var slot, u, tag := SlotOf(s.calls[c].phase, role), Party(s.calls[c], role), Replied(c, role);
             SlotOk(s, slot, u, tag) ==> SlotOk(t, slot, u, tag)
    ensures RoleOk(t, c, role)
  {
    var u, tag, slot := Party(s.calls[c], role), Replied(c, role), SlotOf(s.calls[c].phase, role);
    if Settled(t.calls[c].phase) {
      if !Settled(s.calls[c].phase) { CoveredOwns(s, slot, u, tag); }
      OwnsMonotone(Durable(s), Durable(t), u, slot.value, tag);
    }
  }

  lemma StepRoleOk(s: State, a: Action, c: nat, role: Role)
    requires LogOk(s) && Enabled(true, s, a) && LogOk(Next(true, s, a))
    requires c < |Next(true, s, a).calls| && (c < |s.calls| ==> RoleOk(s, c, role))
    ensures RoleOk(Next(true, s, a), c, role)
  {
    var t := Next(true, s, a);
    if c < |s.calls| && Holds(t.calls[c].phase, role) {
      assert RoleOk(s, c, role);
      StepCall(true, s, a, c);
      if !Holds(s.calls[c].phase, role) {
        if a.answer.Fresh? { FreshSlotOk(true, s, c); }
      } else {
        var slot, u, tag := SlotOf(s.calls[c].phase, role), Party(s.calls[c], role), Replied(c, role);
        if SlotOk(s, slot, u, tag) { SlotStays(true, s, a, slot, u, tag); }
        StepDurable(true, s, a);
        HeldRoleStays(s, t, c, role);
      }
    }
  }

  /** A covered INCR reply owns its value in the durable log. */
  lemma CoveredOwns(s: State, slot: Slot, u: User, tag: Tag)
    requires LogOk(s) && SlotOk(s, slot, u, tag) && Covered(s, slot)
    ensures Owns(Durable(s), u, slot.value, tag)
  {
    assert Durable(s)[..slot.offset] == s.log[..slot.offset];
    OwnsAt(Durable(s), slot.offset, u, tag);
  }

  lemma StepRowOwns(s: State, a: Action, m: Message)
    requires LogOk(s) && Enabled(true, s, a) && LogOk(Next(true, s, a))
    requires m in Next(true, s, a).table && (m in s.table ==> RowOwns(s, m))
    requires m.id < |s.calls| ==> forall role :: RoleOk(s, m.id, role)
    ensures RowOwns(Next(true, s, a), m)
  {
    var t := Next(true, s, a);
    StepDurable(true, s, a);
    StepRows(true, s, a);
    forall role ensures Owns(Durable(t), UserOf(m, role), PtsOf(m, role), Replied(m.id, role)) {
      if m in s.table {
        OwnsMonotone(Durable(s), Durable(t), UserOf(m, role), PtsOf(m, role), Replied(m.id, role));
      } else {
        assert RoleOk(s, m.id, role);
        OwnsMonotone(Durable(s), Durable(t), UserOf(m, role), PtsOf(m, role), Replied(m.id, role));
      }
    }
  }

  lemma StepBase(a1: bool, s: State, a: Action)
    requires Base(s) && Enabled(a1, s, a)
    ensures Base(Next(a1, s, a))
  {
    StepLogOk(a1, s, a);
    StepTableOk(a1, s, a);
  }

  lemma StepInv(s: State, a: Action)
    requires Inv(s) && Enabled(true, s, a)
    ensures Inv(Next(true, s, a))
  {
    var t := Next(true, s, a);
    StepBase(true, s, a);
    forall c, role | 0 <= c < |t.calls| ensures RoleOk(t, c, role) { StepRoleOk(s, a, c, role); }
    forall i | 0 <= i < |t.table| ensures RowOwns(t, t.table[i]) { StepRowOwns(s, a, t.table[i]); }
  }
}
