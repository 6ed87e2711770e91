/** The warning text built by `notify_on_event`. */
module Notify {
  /** The three status messages the state tracker can attach to a warning. */
  datatype Status = NewPublicAcl | ChangedToPublic | StillPublic

  function StatusText(s: Status): string
  {
    match s
    case NewPublicAcl => "New Public ACL"
    case ChangedToPublic => "Changed to Public from Private"
    case StillPublic => "Is Public now, and was public previously"
  }

  const Intro: string := "s3 bucket "
  const PermissionsLead: string := " has been detected as public with the permissions "
  const StatusLead: string := " and the status message: "

  /** The warning logged for `bucket`, its label `pubperm` and the status. */
  function Message(bucket: string, pubperm: string, status: Status): string
  {
    Intro + bucket + PermissionsLead + pubperm + StatusLead + StatusText(status)
  }

  /** Offset of the status text inside a message. */
  function StatusOffset(bucket: string, pubperm: string): nat
  {
    |Intro| + |bucket| + |PermissionsLead| + |pubperm| + |StatusLead|
  }

  /**
   * The message can be read back: the bucket name sits right after the fixed introduction,
   * the label right after the permissions lead, and the status text ends the message.
   */
  lemma MessageFields(bucket: string, pubperm: string, status: Status)
    ensures var m := Message(bucket, pubperm, status);
      var p := |Intro| + |bucket| + |PermissionsLead|;
      && |m| == StatusOffset(bucket, pubperm) + |StatusText(status)|
      && m[..|Intro|] == Intro
      && m[|Intro|..|Intro| + |bucket|] == bucket
      && m[p..p + |pubperm|] == pubperm
      && m[StatusOffset(bucket, pubperm)..] == StatusText(status)
  {
    var m := Message(bucket, pubperm, status);
    var a := Intro + bucket;
    var b := a + PermissionsLead + pubperm;
    assert m == b + StatusLead + StatusText(status);
    assert m[..|b|] == b;
    assert b[..|a|] == a;
  }

  /** Distinct statuses give distinct messages for the same bucket and label. */
  lemma MessageDistinguishesStatus(bucket: string, pubperm: string, s1: Status, s2: Status)
    requires s1 != s2
    ensures Message(bucket, pubperm, s1) != Message(bucket, pubperm, s2)
  {
  }
}
