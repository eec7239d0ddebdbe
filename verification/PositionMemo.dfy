/**
 The server's memory of where a cursor landed in a file: a dictionary in insertion
 order, bounded to 64 entries, that drops its oldest entry to make room.
 */
module PositionMemo {
  import opened Wrappers
  import opened DayFile

  const MEMO_CAP: nat := 64

  datatype Key = Key(day: int, inode: int, id: Id)
  datatype Entry = Entry(key: Key, offset: nat)

  /** The dictionary's entries, oldest first. */
  type Memo = seq<Entry>

  function Get(m: Memo, k: Key): (r: Option<nat>)
    ensures r.Some? ==> Entry(k, r.value) in m
  {
    if m == [] then None
    else if m[0].key == k then Some(m[0].offset)
    else Get(m[1..], k)
  }

  function Without(m: Memo, k: Key): (r: Memo)
    ensures |r| <= |m| && (Get(m, k).Some? ==> |r| < |m|)
    ensures forall e :: e in r ==> e in m && e.key != k
  {
    if m == [] then []
    else if m[0].key == k then Without(m[1..], k)
    else [m[0]] + Without(m[1..], k)
  }

  /** What makes room for `k`: its old entry goes, or else the oldest entry of a full memo. */
  function MakeRoom(m: Memo, k: Key): (r: Memo)
    ensures |m| <= MEMO_CAP ==> |r| < MEMO_CAP
    ensures forall e :: e in r ==> e in m
  {
    if Get(m, k).Some? then Without(m, k)
    else if |m| >= MEMO_CAP then m[1..]
    else m
  }

  /** `_memo_put` */
  function Put(m: Memo, k: Key, offset: nat): (r: Memo)
    ensures |m| <= MEMO_CAP ==> |r| <= MEMO_CAP
    ensures forall e :: e in r ==> e in m || e == Entry(k, offset)
  {
    MakeRoom(m, k) + [Entry(k, offset)]
  }

  lemma {:induction false} GetAppend(m: Memo, e: Entry, k: Key)
    ensures Get(m + [e], k) == if Get(m, k).Some? then Get(m, k)
                               else if e.key == k then Some(e.offset) else None
  {
    if m != [] {
      assert (m + [e])[1..] == m[1..] + [e];
      GetAppend(m[1..], e, k);
    }
  }

  lemma {:induction false} GetWithout(m: Memo, k: Key, k': Key)
    ensures Get(Without(m, k), k') == if k' == k then None else Get(m, k')
  {
    if m != [] {
      GetWithout(m[1..], k, k');
      if m[0].key != k {
        assert ([m[0]] + Without(m[1..], k))[1..] == Without(m[1..], k);
      }
    }
  }

  /**
   A put is remembered; every other key keeps its offset, except that a full memo
   forgets its oldest entry to admit a new key.
   */
  lemma PutThenGet(m: Memo, k: Key, offset: nat, k': Key)
    ensures Get(Put(m, k, offset), k) == Some(offset)
    ensures k' != k && (Get(m, k).Some? || |m| < MEMO_CAP || m[0].key != k')
            ==> Get(Put(m, k, offset), k') == Get(m, k')
  {
    GetAppend(MakeRoom(m, k), Entry(k, offset), k);
    GetAppend(MakeRoom(m, k), Entry(k, offset), k');
    if Get(m, k).Some? {
      GetWithout(m, k, k);
      GetWithout(m, k, k');
    }
  }

  /** The shared dictionary. */
  class Shared {
    var entries: Memo

    constructor ()
      ensures entries == []
    {
      entries := [];
    }

    method Lookup(k: Key) returns (r: Option<nat>)
      ensures r == Get(entries, k)
    {
      var i := 0;
      r := None;
      while i < |entries| && r.None?
        invariant 0 <= i <= |entries|
        invariant if r.None? then Get(entries, k) == Get(entries[i..], k) else r == Get(entries, k)
      {
        if entries[i].key == k {
          r := Some(entries[i].offset);
        }
        i := i + 1;
      }
    }

    method Store(k: Key, offset: nat)
      modifies this
      ensures entries == Put(old(entries), k, offset)
    {
      var present := Lookup(k);
      if present.Some? {
        entries := Without(entries, k);
      } else if |entries| >= MEMO_CAP {
        entries := entries[1..];
      }
      entries := entries + [Entry(k, offset)];
    }
  }
}
