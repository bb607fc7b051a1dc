/**
 * The run-wide results dictionary (entity to row count or the "FAILED"
 * marker) and the two figures the full-load summary computes
 * from it.
 */
module Outcomes {
  import opened Wrappers

  /** What `results[entity]` holds: `len(df)` or the string "FAILED". */
  datatype Outcome = Count(n: nat) | FailedMarker

  /**
   * A Python dict keeps insertion order, so the results are a sequence of
   * entries; `K` is the type of the keys.
   */
  type Results<K> = seq<(K, Outcome)>

  function Names<K>(res: Results<K>): (r: seq<K>)
    ensures |r| == |res| && forall i :: 0 <= i < |res| ==> r[i] == res[i].0
  {
    if res == [] then [] else [res[0].0] + Names(res[1..])
  }

  /** `results.get(name)`: the value of the first entry with that key. */
  function Lookup<K(==)>(res: Results<K>, name: K): (r: Option<Outcome>)
    ensures r.None? <==> name !in Names(res)
  {
    if res == [] then None
    else if res[0].0 == name then Some(res[0].1)
    else Lookup(res[1..], name)
  }

  /**
   * `results[name] = o`: an existing entry keeps its place and takes the
   * new value; a new key is appended at the end.
   */
  function Record<K(==)>(res: Results<K>, name: K, o: Outcome): (r: Results<K>)
    ensures name in Names(res) ==> Names(r) == Names(res)
    ensures name !in Names(res) ==> r == res + [(name, o)]
  {
    if res == [] then [(name, o)]
    else if res[0].0 == name then
      var r := [(name, o)] + res[1..];
      assert r[1..] == res[1..];
      r
    else
      var rest := Record(res[1..], name, o);
      var r := [res[0]] + rest;
      assert r[1..] == rest;
      assert Names(r) == [res[0].0] + Names(rest);
      assert name in Names(res) <==> name in Names(res[1..]);
      r
  }

  /** After `results[name] = o`, `results.get(name)` is `o` and every other key reads as before. */
  lemma {:induction false} RecordLookup<K>(res: Results<K>, name: K, o: Outcome)
    ensures Lookup(Record(res, name, o), name) == Some(o)
    ensures forall k :: k != name ==> Lookup(Record(res, name, o), k) == Lookup(res, k)
  {
    if res != [] && res[0].0 != name {
      RecordLookup(res[1..], name, o);
    }
  }

  /** Recording a key that no entry carries yet appends one entry. */
  lemma RecordFresh<K>(res: Results<K>, name: K, o: Outcome)
    requires forall i :: 0 <= i < |res| ==> res[i].0 != name
    ensures Record(res, name, o) == res + [(name, o)]
  {
    assert name !in Names(res);
  }

  /** `sum(1 for v in results.values() if v != "FAILED")` */
  function Successes<K>(res: Results<K>): nat {
    if res == [] then 0
    else (if res[0].1.FailedMarker? then 0 else 1) + Successes(res[1..])
  }

  /** `sum(v for v in results.values() if isinstance(v, int))` */
  function TotalRecords<K>(res: Results<K>): nat {
    if res == [] then 0
    else (if res[0].1.Count? then res[0].1.n else 0) + TotalRecords(res[1..])
  }

  /** Successes never exceed the number of entries; the rest are failures. */
  lemma {:induction false} SuccessesBounded<K>(res: Results<K>)
    ensures Successes(res) <= |res|
    ensures Successes(res) == |res| <==> forall i :: 0 <= i < |res| ==> res[i].1.Count?
  {
    if res != [] {
      SuccessesBounded(res[1..]);
      if forall i :: 0 <= i < |res[1..]| ==> res[1..][i].1.Count? {
        assert forall i :: 1 <= i < |res| ==> res[i] == res[1..][i - 1];
      }
    }
  }

  /** Records are only counted from successful entries. */
  lemma {:induction false} TotalNeedsSuccess<K>(res: Results<K>)
    ensures Successes(res) == 0 ==> TotalRecords(res) == 0
  {
    if res != [] {
      TotalNeedsSuccess(res[1..]);
    }
  }

  /** Both figures add up entry by entry, in any split of the results. */
  lemma {:induction false} SummaryAppend<K>(res: Results<K>, more: Results<K>)
    ensures Successes(res + more) == Successes(res) + Successes(more)
    ensures TotalRecords(res + more) == TotalRecords(res) + TotalRecords(more)
  {
    if res == [] {
      assert res + more == more;
    } else {
      assert (res + more)[1..] == res[1..] + more;
      SummaryAppend(res[1..], more);
    }
  }
}
