/**
 * The bucket table and the change classification of `write_s3_state`: the last label
 * and last-seen time of every bucket, and the warning raised on each write.
 */
module BucketState {
  import opened Wrappers
  import opened Acl
  import opened Notify

  /** One row of the `buckets` table, keyed by the unique bucket name. */
  datatype BucketRecord = BucketRecord(lastSeenPermission: string, lastSeenDate: int)

  /** The table together with the warnings logged so far. */
  datatype Store = Store(buckets: map<string, BucketRecord>, warnings: seq<string>)

  /** The row for `bucket`, if the table has one. */
  function Lookup(table: map<string, BucketRecord>, bucket: string): Option<BucketRecord>
  {
    if bucket in table then Some(table[bucket]) else None
  }

  /**
   * The status a write of `pubperm` raises, decided from the row read before the write:
   * every unseen bucket raises a warning, whatever its label; a known bucket raises one
   * only when the new label is public.
   */
  function Classify(prior: Option<BucketRecord>, pubperm: string): (r: Option<Status>)
    ensures r == Some(NewPublicAcl) <==> prior.None?
    ensures r == Some(ChangedToPublic) <==> prior.Some? && pubperm != NotPublic && prior.value.lastSeenPermission == NotPublic
    ensures r == Some(StillPublic) <==> prior.Some? && pubperm != NotPublic && prior.value.lastSeenPermission != NotPublic
    ensures r.None? <==> prior.Some? && pubperm == NotPublic
  {
    match prior
    case None => Some(NewPublicAcl)
    case Some(row) =>
      if pubperm == NotPublic then None
      else if row.lastSeenPermission == NotPublic then Some(ChangedToPublic)
      else Some(StillPublic)
  }

  /** The warnings a classification logs: one message, or none. */
  function Notices(bucket: string, pubperm: string, status: Option<Status>): seq<string>
  {
    if status.Some? then [Message(bucket, pubperm, status.value)] else []
  }

  /**
   * One `write_s3_state` call on the abstract store: the bucket's row becomes
   * (`pubperm`, `now`), every other row stays, and at most one warning is appended.
   */
  function Write(st: Store, bucket: string, pubperm: string, now: int): (r: Store)
    ensures bucket in r.buckets && r.buckets[bucket] == BucketRecord(pubperm, now)
    ensures r.buckets.Keys == st.buckets.Keys + {bucket}
    ensures forall x :: x in st.buckets && x != bucket ==> r.buckets[x] == st.buckets[x]
    ensures |st.warnings| <= |r.warnings| <= |st.warnings| + 1
    ensures r.warnings[..|st.warnings|] == st.warnings
    ensures |r.warnings| == |st.warnings| + 1 <==> bucket !in st.buckets || pubperm != NotPublic
    ensures |r.warnings| == |st.warnings| + 1 ==>
      r.warnings[|st.warnings|] == Message(bucket, pubperm, Classify(Lookup(st.buckets, bucket), pubperm).value)
  {
    var status := Classify(Lookup(st.buckets, bucket), pubperm);
    Store(st.buckets[bucket := BucketRecord(pubperm, now)], st.warnings + Notices(bucket, pubperm, status))
  }

  /**
   * Rescanning a bucket with the same label never reports it as new or as having turned
   * public: a public label logs exactly one re-confirmation, a private one logs nothing,
   * and the stored label does not change.
   */
  lemma RescanSameLabel(st: Store, bucket: string, pubperm: string, t1: int, t2: int)
    ensures var st1 := Write(st, bucket, pubperm, t1);
      var st2 := Write(st1, bucket, pubperm, t2);
      && st2.warnings == st1.warnings + (if pubperm == NotPublic then [] else [Message(bucket, pubperm, StillPublic)])
      && st2.buckets[bucket].lastSeenPermission == st1.buckets[bucket].lastSeenPermission
  {
  }

  /**
   * The warning text of a write names the bucket right after the introduction and ends
   * with the status text chosen from the prior row.
   */
  lemma WriteWarningNamesBucket(st: Store, bucket: string, pubperm: string, now: int)
    requires bucket !in st.buckets || pubperm != NotPublic
    ensures var w := Write(st, bucket, pubperm, now).warnings[|st.warnings|];
      var text := StatusText(Classify(Lookup(st.buckets, bucket), pubperm).value);
      && w[|Intro|..|Intro| + |bucket|] == bucket
      && w[|w| - |text|..] == text
  {
  }

  /** The in-memory stand-in for the sqlite table and the warning log. */
  class Monitor {
    var buckets: map<string, BucketRecord>
    var warnings: seq<string>

    /** An empty table, as a freshly created database holds. */
    constructor ()
      ensures buckets == map[] && warnings == []
    {
      buckets := map[];
      warnings := [];
    }

    /** The abstract value of the monitor. */
    function Snapshot(): Store
      reads this
    {
      Store(buckets, warnings)
    }

    /** Logs the warning for `bucket`. */
    method NotifyOnEvent(bucket: string, pubperm: string, status: Status)
      modifies this`warnings
      ensures warnings == old(warnings) + [Message(bucket, pubperm, status)]
    {
      var message := Message(bucket, pubperm, status);
      warnings := warnings + [message];
    }

    /**
     * Records `pubperm` seen at time `now` for `bucket`: inserts or updates its row and
     * logs the warning its classification calls for, decided from the row read first.
     */
    method WriteState(bucket: string, pubperm: string, now: int)
      modifies this
      ensures Snapshot() == Write(old(Snapshot()), bucket, pubperm, now)
    {
      if bucket !in buckets {
        buckets := buckets[bucket := BucketRecord(pubperm, now)];
        NotifyOnEvent(bucket, pubperm, NewPublicAcl);
      } else {
        var row := buckets[bucket];
        if pubperm != NotPublic {
          if row.lastSeenPermission == NotPublic {
            NotifyOnEvent(bucket, pubperm, ChangedToPublic);
          } else {
            NotifyOnEvent(bucket, pubperm, StillPublic);
          }
        }
        buckets := buckets[bucket := BucketRecord(pubperm, now)];
      }
    }
  }
}
