/**
 GetDiff's query: what Postgres may answer, what one page means, and what a client that pages
 with the last returned number as its next cursor ends up with.
 */
module Diff {
  import opened Counters
  import opened Backend

  const MAX_LIMIT := 1000

  function EffectiveLimit(limit: int): (n: nat)
    ensures 1 <= n <= MAX_LIMIT
  {
    if limit <= 0 || limit > MAX_LIMIT then MAX_LIMIT else limit
  }

  predicate Concerns(m: Message, u: User) {
    m.receiver == u || m.sender == u
  }

  /** The role whose number GetDiff shows to u; a self-message shows its receiver number. */
  function Shown(m: Message, u: User): Role {
    if m.receiver == u then Received else Sent
  }

  function Pts(m: Message, u: User): int {
    PtsOf(m, Shown(m, u))
  }

  predicate Matches(m: Message, u: User, cursor: int) {
    Concerns(m, u) && Pts(m, u) > cursor
  }

  ghost predicate DistinctIds(rows: seq<Message>) {
    forall i, j :: 0 <= i < j < |rows| ==> rows[i].id != rows[j].id
  }

  ghost predicate Ordered(rows: seq<Message>, u: User) {
    forall i, j :: 0 <= i < j < |rows| ==> Pts(rows[i], u) <= Pts(rows[j], u)
  }

  ghost predicate StrictlyOrdered(rows: seq<Message>, u: User) {
    forall i, j :: 0 <= i < j < |rows| ==> Pts(rows[i], u) < Pts(rows[j], u)
  }

  /** Any answer SQL allows: ORDER BY pts leaves the order of equal numbers open. */
  ghost predicate IsAnswer(table: seq<Message>, u: User, cursor: int, limit: nat, rows: seq<Message>) {
    && |rows| <= limit
    && DistinctIds(rows)
    && Ordered(rows, u)
    && (forall m :: m in rows ==> m in table && Matches(m, u, cursor))
    && (forall m :: m in table && Matches(m, u, cursor) && m !in rows ==>
          |rows| == limit && forall k :: 0 <= k < |rows| ==> Pts(rows[k], u) <= Pts(m, u))
  }

  // ----- an answer exists ------------------------------------------------------------------

  function InsertByPts(rows: seq<Message>, m: Message, u: User): seq<Message> {
    if rows == [] then [m]
    else if Pts(rows[|rows| - 1], u) <= Pts(m, u) then rows + [m]
    else InsertByPts(rows[..|rows| - 1], m, u) + [rows[|rows| - 1]]
  }

  /** All of u's rows above the cursor, in ascending order. */
  function Stream(table: seq<Message>, u: User, cursor: int): seq<Message> {
    if table == [] then []
    else
      var last := table[|table| - 1];
      var rows := Stream(table[..|table| - 1], u, cursor);
      if Matches(last, u, cursor) then InsertByPts(rows, last, u) else rows
  }

  lemma {:induction false} InsertByPtsRows(rows: seq<Message>, m: Message, u: User)
    ensures var out := InsertByPts(rows, m, u);
      |out| == |rows| + 1 && (forall x :: x in out <==> x in rows || x == m)
    decreases |rows|
  {
    if rows == [] || Pts(rows[|rows| - 1], u) <= Pts(m, u) {
    } else {
      var front, last := rows[..|rows| - 1], rows[|rows| - 1];
      assert rows == front + [last];
      InsertByPtsRows(front, m, u);
    }
  }

  lemma {:induction false} InsertByPtsSorts(rows: seq<Message>, m: Message, u: User)
    requires Ordered(rows, u) && DistinctIds(rows) && (forall x :: x in rows ==> x.id != m.id)
    ensures Ordered(InsertByPts(rows, m, u), u) && DistinctIds(InsertByPts(rows, m, u))
    decreases |rows|
  {
    if rows == [] || Pts(rows[|rows| - 1], u) <= Pts(m, u) {
    } else {
      var front, last := rows[..|rows| - 1], rows[|rows| - 1];
      assert forall k :: 0 <= k < |front| ==> front[k] == rows[k];
      InsertByPtsSorts(front, m, u);
      InsertByPtsRows(front, m, u);
      var out := InsertByPts(front, m, u);
      forall k | 0 <= k < |out| ensures Pts(out[k], u) <= Pts(last, u) && out[k].id != last.id {
        assert out[k] in out;
      }
    }
  }

  lemma {:induction false} StreamMeaning(table: seq<Message>, u: User, cursor: int)
    requires DistinctIds(table)
    ensures var rows := Stream(table, u, cursor);
      && Ordered(rows, u) && DistinctIds(rows)
      && (forall m :: m in rows <==> m in table && Matches(m, u, cursor))
    decreases |table|
  {
    if table == [] {
    } else {
      var front, last := table[..|table| - 1], table[|table| - 1];
      assert table == front + [last];
      StreamMeaning(front, u, cursor);
      var rows := Stream(front, u, cursor);
      forall x | x in rows ensures x.id != last.id {
        assert x in front;
      }
      InsertByPtsSorts(rows, last, u);
      InsertByPtsRows(rows, last, u);
    }
  }

  function Page(table: seq<Message>, u: User, cursor: int, limit: nat): seq<Message> {
    var rows := Stream(table, u, cursor);
    if |rows| <= limit then rows else rows[..limit]
  }

  lemma PageIsAnswer(table: seq<Message>, u: User, cursor: int, limit: nat)
    requires DistinctIds(table)
    ensures IsAnswer(table, u, cursor, limit, Page(table, u, cursor, limit))
  {
    StreamMeaning(table, u, cursor);
    var rows, page := Stream(table, u, cursor), Page(table, u, cursor, limit);
    forall m | m in rows && m !in page
      ensures |page| == limit && forall k :: 0 <= k < |page| ==> Pts(page[k], u) <= Pts(m, u)
    {
      var i :| 0 <= i < |rows| && rows[i] == m;
      assert forall k :: 0 <= k < |page| ==> page[k] == rows[k] && page[k] in page;
    }
  }

  // ----- one page of a stream without repeats ----------------------------------------------

  ghost predicate NoRepeats(table: seq<Message>, u: User) {
    forall m, n :: m in table && n in table && Concerns(m, u) && Concerns(n, u) && Pts(m, u) == Pts(n, u) ==> m == n
  }

  function Advance(u: User, cursor: int, rows: seq<Message>): int {
    if rows == [] then cursor else Pts(rows[|rows| - 1], u)
  }

  lemma AnswerStrict(table: seq<Message>, u: User, cursor: int, limit: nat, rows: seq<Message>)
    requires NoRepeats(table, u) && IsAnswer(table, u, cursor, limit, rows)
    ensures StrictlyOrdered(rows, u)
  {
    forall i, j | 0 <= i < j < |rows| ensures Pts(rows[i], u) < Pts(rows[j], u) {
      assert rows[i] in rows && rows[j] in rows;
    }
  }

  lemma SomeIfSome(xs: seq<Message>, ys: seq<Message>)
    requires forall m :: m in xs ==> m in ys
    ensures xs != [] ==> ys != []
  {
    if xs != [] { assert xs[0] in ys; }
  }

  /** Strictly ascending rows are determined by which rows they are. */
  lemma {:induction false} SameRows(xs: seq<Message>, ys: seq<Message>, u: User)
    requires StrictlyOrdered(xs, u) && StrictlyOrdered(ys, u)
    requires forall m :: m in xs <==> m in ys
    ensures xs == ys
    decreases |xs|
  {
    SomeIfSome(xs, ys);
    SomeIfSome(ys, xs);
    if xs == [] {
    } else {
      assert xs[0] in ys && ys[0] in xs;
      assert xs[0] == ys[0];
      forall m ensures m in xs[1..] <==> m in ys[1..] {
        if m in xs[1..] { NotHead(xs, ys, u, m); }
        if m in ys[1..] { NotHead(ys, xs, u, m); }
      }
      SameRows(xs[1..], ys[1..], u);
    }
  }

  lemma NotHead(xs: seq<Message>, ys: seq<Message>, u: User, m: Message)
    requires StrictlyOrdered(xs, u) && xs != [] && ys != [] && xs[0] == ys[0]
    requires m in xs[1..] && (forall x :: x in xs <==> x in ys)
    ensures m in ys[1..]
  {
    var i :| 0 <= i < |xs[1..]| && xs[1..][i] == m;
    assert Pts(xs[0], u) < Pts(xs[i + 1], u) && xs[i + 1] in xs;
    var j :| 0 <= j < |ys| && ys[j] == m;
    assert ys[1..][j - 1] == m;
  }

  /** Without repeats a page is the front of the stream, and the next cursor leaves exactly the rest. */
  lemma PageRefinesStream(table: seq<Message>, u: User, cursor: int, limit: nat, rows: seq<Message>)
    requires DistinctIds(table) && NoRepeats(table, u)
    requires IsAnswer(table, u, cursor, limit, rows)
    ensures Stream(table, u, cursor) == rows + Stream(table, u, Advance(u, cursor, rows))
    ensures rows == [] && limit > 0 ==> Stream(table, u, cursor) == []
  {
    var next := Advance(u, cursor, rows);
    StreamMeaning(table, u, cursor);
    StreamMeaning(table, u, next);
    var all, rest := Stream(table, u, cursor), Stream(table, u, next);
    StreamStrict(table, u, cursor);
    StreamStrict(table, u, next);
    AnswerStrict(table, u, cursor, limit, rows);
    forall m ensures m in all <==> m in rows + rest {
      if m in rows { assert m in all; }
      if m in rest && rows != [] { assert rows[|rows| - 1] in rows; }
      if m in all && m !in rows {
        if rows != [] { assert rows[|rows| - 1] in rows; }
        assert m in rest;
      }
    }
    forall i, j | 0 <= i < |rows| && 0 <= j < |rest| ensures Pts(rows[i], u) < Pts(rest[j], u) {
      assert rest[j] in rest;
    }
    assert StrictlyOrdered(rows + rest, u);
    SameRows(all, rows + rest, u);
    if rows == [] && limit > 0 { SomeIfSome(all, rows); }
  }

  lemma StreamStrict(table: seq<Message>, u: User, cursor: int)
    requires DistinctIds(table) && NoRepeats(table, u)
    ensures StrictlyOrdered(Stream(table, u, cursor), u)
  {
    PageIsAnswer(table, u, cursor, |Stream(table, u, cursor)|);
    AnswerStrict(table, u, cursor, |Stream(table, u, cursor)|, Stream(table, u, cursor));
  }

  // ----- paging a fixed table --------------------------------------------------------------

  /** One GetDiff as the client sees it: the state the query read, the limit asked, the rows. */
  datatype Read = Read(st: State, limit: int, rows: seq<Message>)

  ghost predicate Walk(u: User, cursor: int, walk: seq<Read>)
    decreases |walk|
  {
    walk == [] ||
    (&& IsAnswer(walk[0].st.table, u, cursor, EffectiveLimit(walk[0].limit), walk[0].rows)
     && Walk(u, Advance(u, cursor, walk[0].rows), walk[1..]))
  }

  function Collected(walk: seq<Read>): seq<Message> {
    if walk == [] then [] else walk[0].rows + Collected(walk[1..])
  }

  function FinalCursor(u: User, cursor: int, walk: seq<Read>): int
    decreases |walk|
  {
    if walk == [] then cursor else FinalCursor(u, Advance(u, cursor, walk[0].rows), walk[1..])
  }

  /** Pages of any limits concatenate to the front of the stream, each row once, in order. */
  lemma {:induction false} PagingRefinesStream(table: seq<Message>, u: User, cursor: int, walk: seq<Read>)
    requires DistinctIds(table) && NoRepeats(table, u)
    requires Walk(u, cursor, walk) && forall i :: 0 <= i < |walk| ==> walk[i].st.table == table
    ensures Stream(table, u, cursor) == Collected(walk) + Stream(table, u, FinalCursor(u, cursor, walk))
    decreases |walk|
  {
    if walk == [] {
      assert Collected(walk) == [];
    } else {
      PageRefinesStream(table, u, cursor, EffectiveLimit(walk[0].limit), walk[0].rows);
      PagingRefinesStream(table, u, Advance(u, cursor, walk[0].rows), walk[1..]);
    }
  }

  /** Paging ends: |Stream| reads suffice whatever their limits, and then the pages are the whole stream. */
  lemma {:induction false} PagingTerminates(table: seq<Message>, u: User, cursor: int, walk: seq<Read>)
    requires DistinctIds(table) && NoRepeats(table, u)
    requires Walk(u, cursor, walk) && forall i :: 0 <= i < |walk| ==> walk[i].st.table == table
    requires |walk| >= |Stream(table, u, cursor)|
    ensures Collected(walk) == Stream(table, u, cursor)
    ensures Stream(table, u, FinalCursor(u, cursor, walk)) == []
    decreases |walk|
  {
    if walk == [] {
      assert Stream(table, u, cursor) == [];
    } else {
      var rows := walk[0].rows;
      PageRefinesStream(table, u, cursor, EffectiveLimit(walk[0].limit), rows);
      PagingTerminates(table, u, Advance(u, cursor, rows), walk[1..]);
      PagingRefinesStream(table, u, cursor, walk);
    }
  }

  lemma {:induction false} CursorClimbs(u: User, cursor: int, walk: seq<Read>)
    requires Walk(u, cursor, walk)
    ensures cursor <= FinalCursor(u, cursor, walk)
    decreases |walk|
  {
    if walk == [] {
    } else {
      var rows := walk[0].rows;
      assert rows != [] ==> rows[|rows| - 1] in rows;
      CursorClimbs(u, Advance(u, cursor, rows), walk[1..]);
    }
  }

  /** The last page is shorter than asked for: the client has no reason to go on. */
  predicate EndsShort(walk: seq<Read>) {
    walk != [] && |walk[|walk| - 1].rows| < EffectiveLimit(walk[|walk| - 1].limit)
  }

  /** A short page means that no row of the table it was read from lies above the final cursor. */
  lemma {:induction false} ShortPageIsLast(u: User, cursor: int, walk: seq<Read>)
    requires Walk(u, cursor, walk) && EndsShort(walk)
    ensures forall m :: m in walk[|walk| - 1].st.table && Concerns(m, u) ==> Pts(m, u) <= FinalCursor(u, cursor, walk)
    decreases |walk|
  {
    var rows, rest := walk[0].rows, walk[1..];
    var next := Advance(u, cursor, rows);
    if rest == [] {
      assert rows != [] ==> rows[|rows| - 1] in rows;
      assert FinalCursor(u, next, rest) == next;
    } else {
      assert rest[|rest| - 1] == walk[|walk| - 1];
      ShortPageIsLast(u, next, rest);
    }
  }

  // ----- the constraints alone -------------------------------------------------------------

  /** What the two UNIQUE constraints keep, whatever numbers Redis hands out. */
  ghost predicate Constrained(table: seq<Message>) {
    && DistinctIds(table)
    && forall i, j :: 0 <= i < j < |table| ==> !Clash(table[i], table[j])
  }

  /** The table after the INSERTs were tried one after the other. */
  function InsertAll(rows: seq<Message>): seq<Message> {
    if rows == [] then []
    else
      var table, last := InsertAll(rows[..|rows| - 1]), rows[|rows| - 1];
      if Rejected(table, last) then table else table + [last]
  }

  lemma {:induction false} OnlyTried(rows: seq<Message>)
    ensures forall m :: m in InsertAll(rows) ==> m in rows
    decreases |rows|
  {
    if rows == [] {
    } else {
      var front, last := rows[..|rows| - 1], rows[|rows| - 1];
      OnlyTried(front);
      assert rows == front + [last];
    }
  }

  /**
   The constraints over any history of INSERTs with arbitrary numbers: the table always keeps them,
   and a tried row is missing exactly when another row of the table has one of its numbers in the
   same role. So the table is as large as it can be: no missing row could be added.
   */
  lemma {:induction false} ConstraintsAreExact(rows: seq<Message>)
    requires DistinctIds(rows)
    ensures var table := InsertAll(rows);
      Constrained(table) && forall m :: m in rows ==> (m !in table <==> exists n :: n in table && n != m && Clash(n, m))
    decreases |rows|
  {
    if rows == [] {
    } else {
      var front, last := rows[..|rows| - 1], rows[|rows| - 1];
      assert rows == front + [last];
      assert forall m :: m in front ==> m.id != last.id;
      ConstraintsAreExact(front);
      OnlyTried(front);
      forall m | m in rows ensures m !in InsertAll(rows) <==> exists n :: n in InsertAll(rows) && n != m && Clash(n, m) {
        OneMoreInsert(InsertAll(front), m, last);
      }
    }
  }

  lemma OneMoreInsert(table: seq<Message>, m: Message, last: Message)
    requires Constrained(table) && last !in table
    requires m == last || (m !in table <==> exists n :: n in table && n != m && Clash(n, m))
    ensures var grown := if Rejected(table, last) then table else table + [last];
      m !in grown <==> exists n :: n in grown && n != m && Clash(n, m)
  {
    var grown := if Rejected(table, last) then table else table + [last];
    if Rejected(table, last) {
      var i :| 0 <= i < |table| && Clash(table[i], last);
      assert table[i] in table;
    } else {
      assert last in grown && forall n :: n in grown ==> n in table || n == last;
      if n :| n in table && n != m && Clash(n, m) { assert n in grown; }
    }
  }

  /** At most two rows of one user's stream share a number: one received and one sent. */
  lemma AtMostTwoShare(table: seq<Message>, u: User, m: Message, n: Message)
    requires Constrained(table) && m in table && n in table && m != n
    requires Concerns(m, u) && Concerns(n, u) && Pts(m, u) == Pts(n, u)
    ensures Shown(m, u) != Shown(n, u)
  {
    var i :| 0 <= i < |table| && table[i] == m;
    var j :| 0 <= j < |table| && table[j] == n;
    assert !Clash(table[i], table[j]);
  }

  /** A page boundary skips at most one row, and only the twin of the last returned row. */
  lemma PageSkipsAtMostOne(table: seq<Message>, u: User, cursor: int, limit: nat, rows: seq<Message>,
                           m: Message, n: Message)
    requires Constrained(table) && IsAnswer(table, u, cursor, limit, rows) && rows != []
    requires m in table && Matches(m, u, cursor) && !Matches(m, u, Advance(u, cursor, rows)) && m !in rows
    requires n in table && Matches(n, u, cursor) && !Matches(n, u, Advance(u, cursor, rows)) && n !in rows
    ensures m == n && Pts(m, u) == Pts(rows[|rows| - 1], u)
  {
    var last := rows[|rows| - 1];
    assert last in rows;
    AtMostTwoShare(table, u, last, m);
    AtMostTwoShare(table, u, last, n);
    if m != n { AtMostTwoShare(table, u, m, n); }
  }

  /** Row m is the twin of page i's last row: it shows the same number in the other role. */
  ghost predicate TwinOfPage(walk: seq<Read>, u: User, m: Message, i: nat) {
    && i < |walk| && walk[i].rows != []
    && var last := walk[i].rows[|walk[i].rows| - 1];
       m != last && Pts(m, u) == Pts(last, u) && Shown(m, u) != Shown(last, u)
  }

  /** Under the constraints alone, paging leaves out only twins of rows at the end of a page. */
  lemma {:induction false} PagingSkipsOnlyTwins(table: seq<Message>, u: User, cursor: int, walk: seq<Read>, m: Message)
    requires Constrained(table)
    requires Walk(u, cursor, walk) && forall i :: 0 <= i < |walk| ==> walk[i].st.table == table
    requires m in table && Matches(m, u, cursor) && Pts(m, u) <= FinalCursor(u, cursor, walk) && m !in Collected(walk)
    ensures exists i: nat :: TwinOfPage(walk, u, m, i)
    decreases |walk|
  {
    if walk == [] {
      assert false;
    } else {
      var rows, rest := walk[0].rows, walk[1..];
      var next := Advance(u, cursor, rows);
      if Matches(m, u, next) {
        PagingSkipsOnlyTwins(table, u, next, rest, m);
        var i: nat :| TwinOfPage(rest, u, m, i);
        assert TwinOfPage(walk, u, m, i + 1);
      } else {
        PageSkipsAtMostOne(table, u, cursor, EffectiveLimit(walk[0].limit), rows, m, m);
        AtMostTwoShare(table, u, m, rows[|rows| - 1]);
        assert TwinOfPage(walk, u, m, 0);
      }
    }
  }

  /** And each page has at most one: the rows left out are no more than the pages read. */
  lemma OneTwinPerPage(table: seq<Message>, walk: seq<Read>, u: User, m: Message, n: Message, i: nat)
    requires Constrained(table) && m in table && n in table && Concerns(m, u) && Concerns(n, u)
    requires TwinOfPage(walk, u, m, i) && TwinOfPage(walk, u, n, i)
    ensures m == n
  {
    if m != n { AtMostTwoShare(table, u, m, n); }
  }

  /** The check the schema lacks: m's numbers meet a number of the same user in the other role. */
  predicate CrossClash(table: seq<Message>, m: Message) {
    || (m.sender == m.receiver && m.senderPts == m.receiverPts)
    || exists i :: 0 <= i < |table| &&
         (SameNumber(table[i], Sent, m, Received) || SameNumber(table[i], Received, m, Sent))
  }

  predicate SameNumber(m: Message, mRole: Role, n: Message, nRole: Role) {
    UserOf(m, mRole) == UserOf(n, nRole) && PtsOf(m, mRole) == PtsOf(n, nRole)
  }

  ghost predicate StreamsDistinct(table: seq<Message>) {
    forall i, j, r, q ::
      0 <= i < |table| && 0 <= j < |table| && SameNumber(table[i], r, table[j], q) ==> i == j && r == q
  }

  /** An accepted INSERT keeps every user's numbers distinct exactly when it has no cross-role clash. */
  lemma CrossClashIsExact(table: seq<Message>, m: Message)
    requires StreamsDistinct(table) && !Rejected(table, m)
    ensures StreamsDistinct(table + [m]) <==> !CrossClash(table, m)
  {
    var grown, n := table + [m], |table|;
    assert forall i :: 0 <= i < n ==> grown[i] == table[i];
    if CrossClash(table, m) {
      if m.sender == m.receiver && m.senderPts == m.receiverPts {
        assert SameNumber(grown[n], Received, grown[n], Sent);
      } else {
        var i :| 0 <= i < n && (SameNumber(table[i], Sent, m, Received) || SameNumber(table[i], Received, m, Sent));
        assert SameNumber(grown[i], Sent, grown[n], Received) || SameNumber(grown[i], Received, grown[n], Sent);
      }
    } else {
      forall i, j, r, q | 0 <= i <= n && 0 <= j <= n && SameNumber(grown[i], r, grown[j], q)
        ensures i == j && r == q
      {
        if i < n && j < n { assert SameNumber(table[i], r, table[j], q); }
        assert forall k :: 0 <= k < n ==> !Clash(table[k], m);
      }
    }
  }
}
