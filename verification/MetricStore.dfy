/** The bounded metric store: a deque of records and the set of their keys, which must always agree. */
module MetricStore {
  import opened Bytes

  datatype Record = Record(key: nat, body: nat)

  // ----- The window -----

  /** The last n records of a history, or all of it. */
  function LastOf(s: seq<Record>, n: nat): (r: seq<Record>)
    ensures |r| == if |s| < n then |s| else n
  {
    if |s| <= n then s else s[|s| - n..]
  }

  ghost predicate HasKey(s: seq<Record>, key: nat) {
    exists i :: 0 <= i < |s| && s[i].key == key
  }

  ghost predicate DistinctKeys(s: seq<Record>) {
    forall i, j :: 0 <= i < j < |s| ==> s[i].key != s[j].key
  }

  datatype Operation = Append(record: Record) | Clear

  /** The records accepted since the last clear: a record is accepted exactly when the last `max` accepted ones do not
      have its key. */
  ghost function Accepted(ops: seq<Operation>, max: nat): seq<Record> {
    if ops == [] then []
    else
      var before := Accepted(ops[..|ops| - 1], max);
      match ops[|ops| - 1]
      case Clear => []
      case Append(record) => if HasKey(LastOf(before, max), record.key) then before else before + [record]
  }

  lemma LastOfAppend(s: seq<Record>, n: nat, r: Record)
    requires n > 0
    ensures LastOf(s + [r], n) == LastOf(LastOf(s, n) + [r], n)
  {
  }

  /** An appended record is accepted if and only if the window holds no record of its key; afterwards the window holds
      one in any case. A clear forgets everything. */
  lemma AcceptedIff(ops: seq<Operation>, max: nat, record: Record)
    requires max > 0
    ensures var before, after := Accepted(ops, max), Accepted(ops + [Append(record)], max);
            && (after == before + [record] <==>
                  forall i :: 0 <= i < |before| && i >= |before| - max ==> before[i].key != record.key)
            && (after != before + [record] ==> after == before)
            && HasKey(LastOf(after, max), record.key)
    ensures Accepted(ops + [Clear], max) == []
  {
    assert (ops + [Append(record)])[..|ops|] == ops && (ops + [Clear])[..|ops|] == ops;
    WindowKey(Accepted(ops, max), max, record.key);
    LastOfAppended(Accepted(ops, max), max, record);
    hide LastOf, HasKey;
  }

  lemma AcceptedNext(ops: seq<Operation>, max: nat, record: Record)
    ensures Accepted(ops + [Append(record)], max) ==
            if HasKey(LastOf(Accepted(ops, max), max), record.key) then Accepted(ops, max)
            else Accepted(ops, max) + [record]
  {
    assert (ops + [Append(record)])[..|ops|] == ops;
  }

  lemma WindowKey(s: seq<Record>, max: nat, key: nat)
    ensures HasKey(LastOf(s, max), key) <==> exists i :: 0 <= i < |s| && i >= |s| - max && s[i].key == key
  {
    var window := LastOf(s, max);
    var from := |s| - |window|;
    forall i | 0 <= i < |window| ensures window[i] == s[from + i] {
    }
    if i :| 0 <= i < |s| && i >= |s| - max && s[i].key == key { assert window[i - from].key == key; }
  }

  lemma LastOfAppended(s: seq<Record>, max: nat, record: Record)
    requires max > 0
    ensures HasKey(LastOf(s + [record], max), record.key) && s + [record] != s
  {
    var window := LastOf(s + [record], max);
    assert window[|window| - 1] == record && |s + [record]| == |s| + 1;
  }

  class AuthenticationMetricStore {
    const max: nat
    var records: seq<Record>
    var keys: set<nat>
    /** The operations so far. */
    ghost var history: seq<Operation>

    /** The deque is the window over everything accepted, without duplicate keys, and the set holds exactly its keys. */
    ghost predicate Valid()
      reads this
    {
      && max > 0 && DistinctKeys(records)
      && (forall k :: k in keys <==> HasKey(records, k))
      && records == LastOf(Accepted(history, max), max)
    }

    constructor (max: nat)
      requires max > 0
      ensures Valid() && this.max == max && history == []
    {
      this.max := max;
      records, keys, history := [], {}, [];
    }

    method Append(record: Record) returns (accepted: bool)
      requires Valid()
      modifies this
      ensures Valid() && history == old(history) + [Operation.Append(record)]
      ensures accepted <==> !old(HasKey(records, record.key))
      ensures records == if accepted then LastOf(old(records) + [record], max) else old(records)
    {
      AcceptedNext(history, max, record);
      LastOfAppend(Accepted(history, max), max, record);
      hide Accepted, LastOf, HasKey, DistinctKeys;
      history := history + [Operation.Append(record)];
      if record.key in keys { return false; }
      AddLast(records, keys, record);
      records := records + [record];
      keys := keys + {record.key};
      Evict();
      accepted := true;
    }

    /** Drops the oldest records, and their keys, until the window fits. */
    method Evict()
      requires DistinctKeys(records) && forall k :: k in keys <==> HasKey(records, k)
      modifies `records, `keys
      ensures records == LastOf(old(records), max)
      ensures DistinctKeys(records) && forall k :: k in keys <==> HasKey(records, k)
    {
      while |records| > max
        invariant DistinctKeys(records) && forall k :: k in keys <==> HasKey(records, k)
        invariant LastOf(records, max) == LastOf(old(records), max)
      {
        DropFirst(records, keys);
        hide HasKey, DistinctKeys;
        assert records[|records| - max..] == records[1..][|records| - 1 - max..];
        keys := keys - {records[0].key};
        records := records[1..];
      }
    }

    method Clear()
      requires Valid()
      modifies this
      ensures Valid() && records == [] && history == old(history) + [Operation.Clear]
    {
      records, keys := [], {};
      history := history + [Operation.Clear];
    }

    method Snapshot() returns (snapshot: seq<Record>)
      requires Valid()
      ensures snapshot == LastOf(Accepted(history, max), max)
    {
      snapshot := [];
      for i := 0 to |records|
        invariant snapshot == records[..i]
      {
        snapshot := snapshot + [records[i]];
      }
    }
  }

  lemma AddLast(s: seq<Record>, keys: set<nat>, r: Record)
    requires DistinctKeys(s) && !HasKey(s, r.key) && forall k :: k in keys <==> HasKey(s, k)
    ensures DistinctKeys(s + [r]) && forall k :: k in keys + {r.key} <==> HasKey(s + [r], k)
  {
    var t := s + [r];
    assert t[|s|] == r && forall i :: 0 <= i < |s| ==> t[i] == s[i];
  }

  lemma DropFirst(s: seq<Record>, keys: set<nat>)
    requires s != [] && DistinctKeys(s) && forall k :: k in keys <==> HasKey(s, k)
    ensures DistinctKeys(s[1..]) && forall k :: k in keys - {s[0].key} <==> HasKey(s[1..], k)
  {
    forall k ensures k in keys - {s[0].key} <==> HasKey(s[1..], k) {
      if k in keys && k != s[0].key {
        var i :| 0 <= i < |s| && s[i].key == k;
        assert s[1..][i - 1].key == k;
      }
      if HasKey(s[1..], k) {
        var i :| 0 <= i < |s[1..]| && s[1..][i].key == k;
        assert s[i + 1].key == k;
      }
    }
  }

  lemma DistinctTail(s: seq<Record>, r: Record, n: nat)
    requires DistinctKeys(s) && !HasKey(s, r.key)
    ensures DistinctKeys(LastOf(s + [r], n))
  {
    var t := s + [r];
    assert t[|s|] == r && forall i :: 0 <= i < |s| ==> t[i] == s[i];
    assert DistinctKeys(t);
  }

  /** No two records of the window share a key, whatever was appended and cleared. */
  lemma {:induction false} WindowDistinct(ops: seq<Operation>, max: nat)
    requires max > 0
    ensures DistinctKeys(LastOf(Accepted(ops, max), max))
  {
    hide DistinctKeys, HasKey, LastOf;
    if ops == [] {
      NothingDistinct(max);
    } else {
      WindowDistinct(ops[..|ops| - 1], max);
      var before := Accepted(ops[..|ops| - 1], max);
      var op := ops[|ops| - 1];
      if op.Clear? {
        NothingDistinct(max);
      } else if !HasKey(LastOf(before, max), op.record.key) {
        LastOfAppend(before, max, op.record);
        DistinctTail(LastOf(before, max), op.record, max);
      }
    }
  }

  lemma NothingDistinct(max: nat)
    ensures DistinctKeys(LastOf([], max))
  {
  }
}
