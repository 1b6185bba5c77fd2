/**
 Redis as the PTS allocator sees it: a replication log of INCR commands.

 A user's counter is the number of that user's entries in the log. Each entry also carries a
 history tag saying which PersistMessage call issued the INCR, for which role, and whether the
 reply reached the caller. Redis does not store the tag and no operation reads it; it only lets
 the properties say who owns a number.
 */
module Counters {

  type User = string

  datatype Role = Received | Sent

  datatype Tag =
    | Replied(call: nat, role: Role)
    | LostReply(call: nat, role: Role)
    | Benchmark

  datatype Entry = Entry(user: User, tag: Tag)

  /** The tags of u's INCRs, oldest first: the INCR that returned v is at index v - 1. */
  function Incrs(log: seq<Entry>, u: User): (tags: seq<Tag>)
  {
    if log == [] then []
    else
      var last := log[|log| - 1];
      Incrs(log[..|log| - 1], u) + (if last.user == u then [last.tag] else [])
  }

  /** The value of the key user:<u>:pts; 0 when the key does not exist. */
  function Counter(log: seq<Entry>, u: User): nat {
    |Incrs(log, u)|
  }

  /** Value v of user u's counter was handed out by the INCR tagged `tag`. */
  predicate Owns(log: seq<Entry>, u: User, v: int, tag: Tag) {
    1 <= v <= Counter(log, u) && Incrs(log, u)[v - 1] == tag
  }

  lemma IncrsAppend(log: seq<Entry>, e: Entry, u: User)
    ensures Incrs(log + [e], u) == Incrs(log, u) + (if e.user == u then [e.tag] else [])
  {
    assert (log + [e])[..|log|] == log;
  }

  /** A longer log only adds values at the end. */
  lemma {:induction false} IncrsMonotone(log: seq<Entry>, longer: seq<Entry>, u: User)
    requires log <= longer
    ensures Incrs(log, u) <= Incrs(longer, u)
    decreases |longer|
  {
    if log == longer {
    } else {
      var shorter := longer[..|longer| - 1];
      assert log <= shorter;
      IncrsMonotone(log, shorter, u);
    }
  }

  lemma OwnsMonotone(log: seq<Entry>, longer: seq<Entry>, u: User, v: int, tag: Tag)
    requires log <= longer && Owns(log, u, v, tag)
    ensures Owns(longer, u, v, tag)
  {
    IncrsMonotone(log, longer, u);
  }

  /** The INCR at a log position owns the value that INCR returned. */
  lemma OwnsAt(log: seq<Entry>, offset: nat, u: User, tag: Tag)
    requires 0 < offset <= |log| && log[offset - 1] == Entry(u, tag)
    ensures Owns(log, u, Counter(log[..offset], u), tag)
  {
    assert log[..offset] == log[..offset - 1] + [log[offset - 1]];
    IncrsAppend(log[..offset - 1], log[offset - 1], u);
    IncrsMonotone(log[..offset], log, u);
  }

  /** Every value is owned by one INCR of that user in the log. */
  lemma {:induction false} OwnerInLog(log: seq<Entry>, u: User, v: int) returns (i: nat)
    requires 1 <= v <= Counter(log, u)
    ensures i < |log| && log[i] == Entry(u, Incrs(log, u)[v - 1])
    ensures Counter(log[..i], u) == v - 1
    decreases |log|
  {
    var n := |log| - 1;
    var shorter := log[..n];
    if v <= Counter(shorter, u) {
      i := OwnerInLog(shorter, u, v);
      assert shorter[..i] == log[..i];
    } else {
      i := n;
    }
  }

  /** Two values owned by the same entry of the log are the same value. */
  lemma OneTagOneValue(log: seq<Entry>, u: User, v: int, w: int, tag: Tag)
    requires Owns(log, u, v, tag) && Owns(log, u, w, tag)
    requires forall i, j :: 0 <= i < j < |log| && log[i].tag == tag ==> log[j].tag != tag
    ensures v == w
  {
    var i := OwnerInLog(log, u, v);
    var j := OwnerInLog(log, u, w);
    assert log[i].tag == log[j].tag == tag;
  }
}
