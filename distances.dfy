/**
 * The distance table both flows look pairs up in: a dict from canonical keys to distances,
 * built so that a later entry for the same key replaces an earlier one, and read with
 * `distances.get(tuple(sorted((a, b))), float('inf'))`.
 */
module Distances {
  import opened Keys

  type Key = seq<string>

  type DistanceTable = map<Key, real>

  /** A looked-up distance: a stored value, or `float('inf')` for a missing pair. */
  datatype Extended = Finite(value: real) | Infinity

  /** `d < t` for a finite threshold `t`; infinity is below nothing. */
  predicate Below(d: Extended, t: real)
  {
    d.Finite? && d.value < t
  }

  /** `d <= t` for a finite threshold `t`; infinity is at most nothing. */
  predicate AtMost(d: Extended, t: real)
  {
    d.Finite? && d.value <= t
  }

  /** A dict built by writing the entries in order: the last write of a key wins. */
  function Override(entries: seq<(Key, real)>): DistanceTable
    decreases |entries|
  {
    if |entries| == 0 then map[]
    else
      var last := entries[|entries| - 1];
      Override(entries[..|entries| - 1])[last.0 := last.1]
  }

  lemma {:induction false} OverrideKeys(entries: seq<(Key, real)>, k: Key)
    ensures k in Override(entries) <==> exists i :: 0 <= i < |entries| && entries[i].0 == k
    decreases |entries|
  {
    if |entries| > 0 {
      var init := entries[..|entries| - 1];
      OverrideKeys(init, k);
      if k in Override(init) {
        var i :| 0 <= i < |init| && init[i].0 == k;
        assert entries[i].0 == k;
      }
      if k != entries[|entries| - 1].0 && exists i :: 0 <= i < |entries| && entries[i].0 == k {
        var i :| 0 <= i < |entries| && entries[i].0 == k;
        assert init[i].0 == k;
      }
    }
  }

  /** The value stored under a key is the one given by the last entry with that key. */
  lemma {:induction false} OverrideLastWins(entries: seq<(Key, real)>, i: nat)
    requires i < |entries|
    requires forall j :: i < j < |entries| ==> entries[j].0 != entries[i].0
    ensures entries[i].0 in Override(entries)
    ensures Override(entries)[entries[i].0] == entries[i].1
    decreases |entries|
  {
    if i < |entries| - 1 {
      var init := entries[..|entries| - 1];
      assert init[i] == entries[i];
      OverrideLastWins(init, i);
    }
  }

  /**
   * `distances.get(tuple(sorted((a, b))), float('inf'))`: a stored value exactly when the two
   * names, in sorted order, are a key of the table.
   */
  function Distance(table: DistanceTable, a: string, b: string): (r: Extended)
    ensures r.Finite? <==> (StrLe(a, b) && [a, b] in table) || (StrLe(b, a) && [b, a] in table)
  {
    assert StrLe(a, b) && StrLe(b, a) ==> a == b by {
      if StrLe(a, b) && StrLe(b, a) { StrLeAntisymmetric(a, b); }
    }
    var key := PairKey(a, b);
    if key in table then Finite(table[key]) else Infinity
  }

  /** A lookup does not depend on the order in which the two towns are given. */
  lemma DistanceSymmetric(table: DistanceTable, a: string, b: string)
    ensures Distance(table, a, b) == Distance(table, b, a)
  {
    PairKeySymmetric(a, b);
  }

  // ----- the dict comprehension of the `/optimize` handler (string keys "A-B")

  /** The items with their keys canonicalised, in order. */
  function StringEntries(items: seq<(string, real)>): seq<(Key, real)>
  {
    seq(|items|, i requires 0 <= i < |items| => (CanonKey(items[i].0), items[i].1))
  }

  /**
   * `{tuple(sorted(k.split('-'))): v for k, v in items}`: its keys are the canonical keys of
   * the items, each a sorted sequence of `-`-free names.
   */
  function FromStringKeys(items: seq<(string, real)>): (r: DistanceTable)
    ensures forall k :: k in r <==> exists i :: 0 <= i < |items| && CanonKey(items[i].0) == k
    ensures forall k :: k in r ==> Sorted(k) && forall n :: n in k ==> '-' !in n
  {
    var entries := StringEntries(items);
    assert forall k :: k in Override(entries) <==> exists i :: 0 <= i < |items| && CanonKey(items[i].0) == k by {
      forall k ensures k in Override(entries) <==> exists i :: 0 <= i < |items| && CanonKey(items[i].0) == k {
        OverrideKeys(entries, k);
        if exists i :: 0 <= i < |entries| && entries[i].0 == k {
          var i :| 0 <= i < |entries| && entries[i].0 == k;
          assert CanonKey(items[i].0) == k;
        }
        if exists i :: 0 <= i < |items| && CanonKey(items[i].0) == k {
          var i :| 0 <= i < |items| && CanonKey(items[i].0) == k;
          assert entries[i].0 == k;
        }
      }
    }
    Override(entries)
  }

  /** A town whose name contains `-` is at infinity from every town: no piece of a split key contains `-`. */
  lemma HyphenatedTownUnmatched(items: seq<(string, real)>, a: string, b: string)
    requires '-' in a
    ensures Distance(FromStringKeys(items), a, b) == Infinity
  {
    var key := PairKey(a, b);
    assert a in multiset(key);
    assert a in key;
  }

  /**
   * The distance given under `"A-B"` (or `"B-A"`) is found by a lookup of (A, B) in either
   * direction, provided no later item names the same pair.
   */
  lemma StringKeyFound(items: seq<(string, real)>, i: nat, a: string, b: string)
    requires i < |items| && '-' !in a && '-' !in b
    requires items[i].0 == a + "-" + b || items[i].0 == b + "-" + a
    requires forall j :: i < j < |items| ==> CanonKey(items[j].0) != PairKey(a, b)
    ensures Distance(FromStringKeys(items), a, b) == Finite(items[i].1)
    ensures Distance(FromStringKeys(items), b, a) == Finite(items[i].1)
  {
    StringKeyDirection(a, b);
    OverrideLastWins(StringEntries(items), i);
    DistanceSymmetric(FromStringKeys(items), a, b);
  }

  /** A pair no item names is at infinity. */
  lemma StringKeyMissing(items: seq<(string, real)>, a: string, b: string)
    requires forall j :: 0 <= j < |items| ==> CanonKey(items[j].0) != PairKey(a, b)
    ensures Distance(FromStringKeys(items), a, b) == Infinity
  {
    OverrideKeys(StringEntries(items), PairKey(a, b));
  }

  /** An item whose key does not split into two names changes no lookup. */
  lemma MalformedItemIgnored(items: seq<(string, real)>, k: string, v: real, a: string, b: string)
    requires Occurrences(k, '-') != 1
    ensures Distance(FromStringKeys(items + [(k, v)]), a, b) == Distance(FromStringKeys(items), a, b)
  {
    MalformedKeyUnmatched(k, a, b);
    assert StringEntries(items + [(k, v)])[..|items|] == StringEntries(items);
  }

  // ----- the loop of the `/solve` handler (records {from, to, distance})

  datatype DistanceRecord = DistanceRecord(from: string, to: string, distance: real)

  /** The records as key-value entries, in order. */
  function RecordEntries(records: seq<DistanceRecord>): seq<(Key, real)>
  {
    seq(|records|, i requires 0 <= i < |records| =>
      (PairKey(records[i].from, records[i].to), records[i].distance))
  }

  /**
   * `distances[tuple(sorted((d['from'], d['to'])))] = d['distance']` for each record in turn:
   * its keys are the pair keys of the records, each the two names in sorted order.
   */
  function FromRecords(records: seq<DistanceRecord>): (r: DistanceTable)
    ensures forall k :: k in r <==> exists i :: 0 <= i < |records| && PairKey(records[i].from, records[i].to) == k
    ensures forall k :: k in r ==> Sorted(k) && |k| == 2
  {
    var entries := RecordEntries(records);
    assert forall k :: k in Override(entries) <==>
                         exists i :: 0 <= i < |records| && PairKey(records[i].from, records[i].to) == k by {
      forall k ensures k in Override(entries) <==>
                       exists i :: 0 <= i < |records| && PairKey(records[i].from, records[i].to) == k {
        OverrideKeys(entries, k);
        if exists i :: 0 <= i < |entries| && entries[i].0 == k {
          var i :| 0 <= i < |entries| && entries[i].0 == k;
          assert PairKey(records[i].from, records[i].to) == k;
        }
        if exists i :: 0 <= i < |records| && PairKey(records[i].from, records[i].to) == k {
          var i :| 0 <= i < |records| && PairKey(records[i].from, records[i].to) == k;
          assert entries[i].0 == k;
        }
      }
    }
    assert forall i :: 0 <= i < |records| ==> |PairKey(records[i].from, records[i].to)| == 2 by {
      forall i | 0 <= i < |records| ensures |PairKey(records[i].from, records[i].to)| == 2 {
        assert |multiset(PairKey(records[i].from, records[i].to))| == 2;
      }
    }
    Override(entries)
  }

  /** Whether a record names the unordered pair {a, b}. */
  predicate Names(r: DistanceRecord, a: string, b: string)
  {
    (r.from == a && r.to == b) || (r.from == b && r.to == a)
  }

  /** The last record that names {a, b}, in either direction, decides the distance of the pair. */
  lemma RecordLastWins(records: seq<DistanceRecord>, i: nat, a: string, b: string)
    requires i < |records| && Names(records[i], a, b)
    requires forall j :: i < j < |records| ==> !Names(records[j], a, b)
    ensures Distance(FromRecords(records), a, b) == Finite(records[i].distance)
    ensures Distance(FromRecords(records), b, a) == Finite(records[i].distance)
  {
    var entries := RecordEntries(records);
    PairKeyEquality(records[i].from, records[i].to, a, b);
    forall j | i < j < |records| ensures entries[j].0 != entries[i].0 {
      PairKeyEquality(records[j].from, records[j].to, a, b);
    }
    OverrideLastWins(entries, i);
    DistanceSymmetric(FromRecords(records), a, b);
  }

  /** A pair that no record names is at infinity. */
  lemma RecordMissing(records: seq<DistanceRecord>, a: string, b: string)
    requires forall j :: 0 <= j < |records| ==> !Names(records[j], a, b)
    ensures Distance(FromRecords(records), a, b) == Infinity
  {
    var entries := RecordEntries(records);
    forall j | 0 <= j < |records| ensures entries[j].0 != PairKey(a, b) {
      PairKeyEquality(records[j].from, records[j].to, a, b);
    }
    OverrideKeys(entries, PairKey(a, b));
  }

  /** Reversing the direction of any one record leaves the table unchanged. */
  lemma RecordDirectionIrrelevant(records: seq<DistanceRecord>, i: nat)
    requires i < |records|
    ensures FromRecords(records[i := DistanceRecord(records[i].to, records[i].from, records[i].distance)])
         == FromRecords(records)
  {
    PairKeySymmetric(records[i].from, records[i].to);
    assert RecordEntries(records[i := DistanceRecord(records[i].to, records[i].from, records[i].distance)])
        == RecordEntries(records);
  }
}
