/** The scan a database performs to answer a filtered query over a table
    keyed by id: every stored row is visited once and the rows the
    WHERE clause keeps are reported. */
module Store {
  import opened Common

  /** The ids of the stored rows the predicate keeps. */
  function KeysWhere<V>(rows: map<Id, V>, keep: V -> bool): set<Id>
  {
    set k | k in rows && keep(rows[k])
  }

  /** Every kept id, each exactly once, in the order the scan meets them. */
  method SelectIds<V>(rows: map<Id, V>, keep: V -> bool) returns (ids: seq<Id>)
    ensures multiset(ids) == multiset(KeysWhere(rows, keep))
    ensures |ids| == |KeysWhere(rows, keep)|
    ensures forall i :: 0 <= i < |ids| ==> ids[i] in rows && keep(rows[ids[i]])
  {
    var remaining := rows.Keys;
    ids := [];
    while remaining != {}
      invariant remaining <= rows.Keys
      invariant multiset(ids) == multiset(Visited(rows, keep, remaining))
      decreases |remaining|
    {
      var k :| k in remaining;
      VisitOne(rows, keep, remaining, k);
      if keep(rows[k]) {
        ids := ids + [k];
      }
      remaining := remaining - {k};
    }
    assert Visited(rows, keep, remaining) == KeysWhere(rows, keep);
    assert |multiset(ids)| == |ids|;
    forall i | 0 <= i < |ids| ensures ids[i] in rows && keep(rows[ids[i]]) {
      assert ids[i] in multiset(ids);
    }
  }

  /** The kept ids among those the scan has already visited. */
  ghost function Visited<V>(rows: map<Id, V>, keep: V -> bool, remaining: set<Id>): set<Id>
  {
    set j | j in rows.Keys - remaining && keep(rows[j])
  }

  /** Visiting one more id adds it to the kept ones exactly when the
      predicate keeps its row. */
  lemma VisitOne<V>(rows: map<Id, V>, keep: V -> bool, remaining: set<Id>, k: Id)
    requires k in remaining && remaining <= rows.Keys
    ensures k !in Visited(rows, keep, remaining)
    ensures Visited(rows, keep, remaining - {k})
              == if keep(rows[k]) then Visited(rows, keep, remaining) + {k} else Visited(rows, keep, remaining)
  {
  }

  /** The stored rows under the given ids, in that order. */
  function Rows<V>(records: map<Id, V>, ids: seq<Id>): (rows: seq<V>)
    requires forall i :: 0 <= i < |ids| ==> ids[i] in records
    ensures |rows| == |ids| && forall i :: 0 <= i < |ids| ==> rows[i] == records[ids[i]]
  {
    seq(|ids|, i requires 0 <= i < |ids| => records[ids[i]])
  }

  /** OFFSET skip LIMIT limit: positions skip .. skip+limit-1, as many as exist. */
  function PageOf<T>(s: seq<T>, skip: nat, limit: nat): (r: seq<T>)
    ensures |r| <= limit
    ensures |r| == if skip >= |s| then 0 else Min(limit, |s| - skip)
    ensures forall i :: 0 <= i < |r| ==> r[i] == s[skip + i]
  {
    if skip >= |s| then [] else s[skip..skip + Min(limit, |s| - skip)]
  }
}
