/** The scan loop of `evaluate_s3_buckets`: one label and one state write per listed bucket. */
module Scan {
  import opened Acl
  import opened Notify
  import opened BucketState

  /** The store after a scan, and how many buckets were processed before the scan stopped. */
  datatype Outcome = Outcome(store: Store, processed: nat)

  /**
   * A scan of `buckets` against the ACLs `acls` at time `now`: each bucket in list order
   * gets its label written once; the scan stops at the first bucket whose ACL cannot be
   * fetched (not a key of `acls`), with the writes before it kept.
   */
  function Run(st: Store, buckets: seq<string>, acls: map<string, seq<Grant>>, now: int): (r: Outcome)
    ensures r.processed <= |buckets|
    ensures forall i :: 0 <= i < r.processed ==> buckets[i] in acls
    ensures r.processed < |buckets| ==> buckets[r.processed] !in acls
    ensures |st.warnings| <= |r.store.warnings| <= |st.warnings| + r.processed
    ensures r.store.warnings[..|st.warnings|] == st.warnings
    decreases |buckets|
  {
    if buckets == [] || buckets[0] !in acls then Outcome(st, 0)
    else
      var st1 := Write(st, buckets[0], Label(acls[buckets[0]]), now);
      var rest := Run(st1, buckets[1..], acls, now);
      Outcome(rest.store, rest.processed + 1)
  }

  /** A scan leaves the row of every bucket it did not process as it was (or absent). */
  lemma {:induction false} RunKeepsOthers(st: Store, buckets: seq<string>, acls: map<string, seq<Grant>>, now: int, x: string)
    requires forall i :: 0 <= i < Run(st, buckets, acls, now).processed ==> buckets[i] != x
    ensures var r := Run(st, buckets, acls, now);
      && (x in r.store.buckets <==> x in st.buckets)
      && (x in st.buckets ==> r.store.buckets[x] == st.buckets[x])
    decreases |buckets|
  {
    if buckets != [] && buckets[0] in acls {
      var b := buckets[0];
      var st1 := Write(st, b, Label(acls[b]), now);
      var tail := buckets[1..];
      var k := Run(st1, tail, acls, now).processed;
      assert Run(st, buckets, acls, now) == Outcome(Run(st1, tail, acls, now).store, k + 1);
      assert x != b;
      assert forall i :: 0 <= i < k ==> tail[i] == buckets[i + 1];
      RunKeepsOthers(st1, tail, acls, now, x);
    }
  }

  /** After a scan, every processed bucket holds the label of its ACL and the scan time. */
  lemma {:induction false} RunRecordsProcessed(st: Store, buckets: seq<string>, acls: map<string, seq<Grant>>, now: int, i: nat)
    requires i < Run(st, buckets, acls, now).processed
    ensures var r := Run(st, buckets, acls, now);
      buckets[i] in r.store.buckets && r.store.buckets[buckets[i]] == BucketRecord(Label(acls[buckets[i]]), now)
    decreases |buckets|
  {
    var b := buckets[0];
    var st1 := Write(st, b, Label(acls[b]), now);
    var tail := buckets[1..];
    var k := Run(st1, tail, acls, now).processed;
    assert Run(st, buckets, acls, now) == Outcome(Run(st1, tail, acls, now).store, k + 1);
    if i > 0 {
      RunRecordsProcessed(st1, tail, acls, now, i - 1);
    } else if j :| 0 <= j < k && tail[j] == b {
      RunRecordsProcessed(st1, tail, acls, now, j);
    } else {
      RunKeepsOthers(st1, tail, acls, now, b);
    }
  }

  /** When every processed bucket is public, each one logs exactly one warning. */
  lemma {:induction false} RunPublicWarnsEach(st: Store, buckets: seq<string>, acls: map<string, seq<Grant>>, now: int)
    requires forall b :: b in acls ==> Label(acls[b]) != NotPublic
    ensures |Run(st, buckets, acls, now).store.warnings| == |st.warnings| + Run(st, buckets, acls, now).processed
    decreases |buckets|
  {
    if buckets != [] && buckets[0] in acls {
      RunPublicWarnsEach(Write(st, buckets[0], Label(acls[buckets[0]]), now), buckets[1..], acls, now);
    }
  }

  /** A scan over buckets that are all already known and all private logs nothing. */
  lemma {:induction false} RunKnownPrivateSilent(st: Store, buckets: seq<string>, acls: map<string, seq<Grant>>, now: int)
    requires forall i :: 0 <= i < |buckets| ==> buckets[i] in st.buckets
    requires forall b :: b in acls ==> Label(acls[b]) == NotPublic
    ensures Run(st, buckets, acls, now).store.warnings == st.warnings
    decreases |buckets|
  {
    if buckets != [] && buckets[0] in acls {
      var st1 := Write(st, buckets[0], Label(acls[buckets[0]]), now);
      RunKnownPrivateSilent(st1, buckets[1..], acls, now);
    }
  }

  /**
   * The first sighting of a bucket warns with "New Public ACL" even when the bucket is
   * private (its ACL holds only the owner's grant); a rescan of it then stays silent.
   */
  lemma FirstSightingOfPrivateBucketWarns(owner: Grant)
    ensures var acls := map["b1" := [owner]];
      var r := Run(Store(map[], []), ["b1", "b1"], acls, 7);
      && r.processed == 2
      && r.store.warnings == [Message("b1", NotPublic, NewPublicAcl)]
      && r.store.buckets == map["b1" := BucketRecord(NotPublic, 7)]
  {
    SingleGrantShortcut(owner);
  }

  /**
   * Scans `buckets`: fetches each ACL, computes its label and writes it, in list order.
   * Returns how many buckets were processed; the scan stops at the first bucket whose ACL
   * cannot be fetched.
   */
  method EvaluateBuckets(m: Monitor, buckets: seq<string>, acls: map<string, seq<Grant>>, now: int)
    returns (processed: nat)
    modifies m
    ensures Run(old(m.Snapshot()), buckets, acls, now) == Outcome(m.Snapshot(), processed)
  {
    processed := 0;
    while processed < |buckets|
      invariant processed <= |buckets|
      invariant var r := Run(m.Snapshot(), buckets[processed..], acls, now);
        Run(old(m.Snapshot()), buckets, acls, now) == Outcome(r.store, r.processed + processed)
    {
      var bucket := buckets[processed];
      if bucket !in acls {
        return;
      }
      var grants := acls[bucket];
      var pubperm := ComputeLabel(grants);
      m.WriteState(bucket, pubperm, now);
      assert buckets[processed..][1..] == buckets[processed + 1..];
      processed := processed + 1;
    }
  }
}
