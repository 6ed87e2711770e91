/**
 * Turning a bucket's ACL grant list into the permission label that is stored
 * for the bucket (the label computation inside `evaluate_s3_buckets`).
 */
module Acl {
  import opened Wrappers

  /** Grantee URI of the predefined group that stands for anonymous, public access. */
  const AllUsersUri: string := "http://acs.amazonaws.com/groups/global/AllUsers"

  /** The label stored for a bucket found not to be public. */
  const NotPublic: string := "notpublic"

  /**
   * One ACL grant. `uri` is `None` when the grant has no `Grantee` or its grantee
   * has no `URI`; `permission` is `None` when the grant has no `Permission`.
   */
  datatype Grant = Grant(uri: Option<string>, permission: Option<string>)

  /** The grant names the AllUsers group. */
  predicate IsAllUsers(g: Grant) {
    g.uri == Some(AllUsersUri)
  }

  /** The grant adds its permission to the public result: an AllUsers grant with a permission. */
  predicate Contributes(g: Grant) {
    IsAllUsers(g) && g.permission.Some?
  }

  /** The permissions of the contributing grants, in grant order, duplicates kept. */
  function PublicPermissions(grants: seq<Grant>): seq<string>
  {
    if grants == [] then []
    else
      var last := grants[|grants| - 1];
      PublicPermissions(grants[..|grants| - 1]) + (if Contributes(last) then [last.permission.value] else [])
  }

  /** Joins the parts with a single space between neighbours, as `" ".join(parts)`. */
  function Join(parts: seq<string>): string
  {
    if parts == [] then ""
    else if |parts| == 1 then parts[0]
    else parts[0] + " " + Join(parts[1..])
  }

  /**
   * Splits a string at every space, as `s.split(" ")`. It undoes `Join` on non-empty lists
   * of space-free parts (`SplitJoin`); `Split(Join([]))` is `[""]`.
   */
  function Split(s: string): (r: seq<string>)
    ensures |r| >= 1
  {
    if s == [] then [""]
    else if s[0] == ' ' then [""] + Split(s[1..])
    else
      var rest := Split(s[1..]);
      [[s[0]] + rest[0]] + rest[1..]
  }

  /** The label the general (more than one grant) branch computes. */
  function GeneralLabel(grants: seq<Grant>): string
  {
    var found := PublicPermissions(grants);
    if |found| == 0 then NotPublic else Join(found)
  }

  /** The label written for a bucket whose ACL holds `grants`. */
  function Label(grants: seq<Grant>): string
  {
    if |grants| == 1 then NotPublic else GeneralLabel(grants)
  }

  /** The label computation as the scanner runs it: one pass over the grants, collecting public permissions. */
  method ComputeLabel(grants: seq<Grant>) returns (pubperm: string)
    ensures pubperm == Label(grants)
  {
    if |grants| == 1 {
      return NotPublic;
    }
    var publicResult: seq<string> := [];
    for i := 0 to |grants|
      invariant publicResult == PublicPermissions(grants[..i])
    {
      var grant := grants[i];
      if grant.uri.Some? && grant.uri.value == AllUsersUri && grant.permission.Some? {
        publicResult := publicResult + [grant.permission.value];
      }
      assert grants[..i + 1][..i] == grants[..i];
    }
    assert grants[..|grants|] == grants;
    if |publicResult| == 0 {
      pubperm := NotPublic;
    } else {
      pubperm := Join(publicResult);
    }
  }

  /** Collecting public permissions distributes over concatenation of grant lists, so grant order is kept. */
  lemma {:induction false} PublicPermissionsAppend(a: seq<Grant>, b: seq<Grant>)
    ensures PublicPermissions(a + b) == PublicPermissions(a) + PublicPermissions(b)
    decreases |b|
  {
    if b == [] {
      assert a + b == a;
    } else {
      var b' := b[..|b| - 1];
      assert (a + b)[..|a + b| - 1] == a + b';
      assert (a + b)[|a + b| - 1] == b[|b| - 1];
      PublicPermissionsAppend(a, b');
    }
  }

  /** Every collected permission is the permission of some contributing grant. */
  lemma {:induction false} PublicPermissionsSource(grants: seq<Grant>, k: nat)
    requires k < |PublicPermissions(grants)|
    ensures exists i :: 0 <= i < |grants| && Contributes(grants[i]) && grants[i].permission.value == PublicPermissions(grants)[k]
    decreases |grants|
  {
    var init := grants[..|grants| - 1];
    var last := grants[|grants| - 1];
    if k < |PublicPermissions(init)| {
      PublicPermissionsSource(init, k);
      var i :| 0 <= i < |init| && Contributes(init[i]) && init[i].permission.value == PublicPermissions(init)[k];
      assert grants[i] == init[i];
    } else {
      assert Contributes(last);
    }
  }

  /** Nothing is collected exactly when no grant contributes. */
  lemma {:induction false} PublicPermissionsEmpty(grants: seq<Grant>)
    ensures PublicPermissions(grants) == [] <==> forall i :: 0 <= i < |grants| ==> !Contributes(grants[i])
    decreases |grants|
  {
    if grants != [] {
      var init := grants[..|grants| - 1];
      PublicPermissionsEmpty(init);
      assert forall i :: 0 <= i < |init| ==> init[i] == grants[i];
    }
  }

  /** A space-free word followed by anything splits into the word glued to the first piece of the rest. */
  lemma {:induction false} SplitWord(w: string, t: string)
    requires forall k :: 0 <= k < |w| ==> w[k] != ' '
    ensures Split(w + t) == [w + Split(t)[0]] + Split(t)[1..]
  {
    if w != [] {
      assert (w + t)[1..] == w[1..] + t;
      SplitWord(w[1..], t);
      assert [w[0]] + (w[1..] + Split(t)[0]) == w + Split(t)[0];
    } else {
      assert w + t == t;
      assert w + Split(t)[0] == Split(t)[0];
    }
  }

  /** Round trip: splitting a joined list of space-free, non-empty-list parts gives the parts back. */
  lemma {:induction false} SplitJoin(parts: seq<string>)
    requires |parts| >= 1
    requires forall i, k :: 0 <= i < |parts| && 0 <= k < |parts[i]| ==> parts[i][k] != ' '
    ensures Split(Join(parts)) == parts
  {
    if |parts| == 1 {
      SplitWord(parts[0], "");
      assert Split("") == [""];
      assert parts[0] + "" == parts[0];
    } else {
      var rest := Join(parts[1..]);
      assert parts[0] + " " + rest == parts[0] + (" " + rest);
      SplitWord(parts[0], " " + rest);
      assert (" " + rest)[0] == ' ' && (" " + rest)[1..] == rest;
      assert Split(" " + rest) == [""] + Split(rest);
      SplitJoin(parts[1..]);
      assert parts[0] + "" == parts[0];
      assert [parts[0]] + parts[1..] == parts;
    }
  }

  /** A join of two or more parts contains a space, so it can be the sentinel only when it is the sentinel alone. */
  lemma JoinIsNotPublic(parts: seq<string>)
    requires |parts| >= 1
    ensures Join(parts) == NotPublic <==> parts == [NotPublic]
  {
    if |parts| >= 2 {
      var n := |parts[0]|;
      assert Join(parts) == parts[0] + " " + Join(parts[1..]);
      assert Join(parts)[n] == ' ';
      assert NotPublic == ['n', 'o', 't', 'p', 'u', 'b', 'l', 'i', 'c'];
    }
  }

  /**
   * The shortcut: a list of exactly one grant yields the sentinel whatever the grant,
   * even when the general rule would have found the grant public.
   */
  lemma SingleGrantShortcut(g: Grant)
    ensures Label([g]) == NotPublic
    ensures Contributes(g) ==> GeneralLabel([g]) == g.permission.value
  {
    assert [g][..0] == [];
    if Contributes(g) {
      assert PublicPermissions([g]) == [g.permission.value];
    }
  }

  /** With any other number of grants, the label is the sentinel exactly when nothing or only the literal sentinel was collected. */
  lemma NotPublicExactly(grants: seq<Grant>)
    requires |grants| != 1
    ensures Label(grants) == NotPublic <==>
      PublicPermissions(grants) == [] || PublicPermissions(grants) == [NotPublic]
  {
    if PublicPermissions(grants) != [] {
      JoinIsNotPublic(PublicPermissions(grants));
    }
  }

  /**
   * With two or more grants that each carry a permission other than the sentinel (as every
   * ACL grant does), the label is the sentinel exactly when no grant names the AllUsers group.
   */
  lemma PublicIffAllUsersGrant(grants: seq<Grant>)
    requires |grants| >= 2
    requires forall i :: 0 <= i < |grants| ==> grants[i].permission.Some? && grants[i].permission.value != NotPublic
    ensures Label(grants) == NotPublic <==> forall i :: 0 <= i < |grants| ==> !IsAllUsers(grants[i])
  {
    NotPublicExactly(grants);
    PublicPermissionsEmpty(grants);
    if PublicPermissions(grants) == [NotPublic] {
      PublicPermissionsSource(grants, 0);
    }
  }

  /**
   * Grants without a grantee URI, with another grantee, or without a permission are skipped:
   * inserting one anywhere changes neither the collected permissions nor the label, unless the
   * list held exactly one grant before, where the one-grant shortcut stops applying.
   */
  lemma SkippedGrantContributesNothing(a: seq<Grant>, g: Grant, b: seq<Grant>)
    requires !Contributes(g)
    ensures PublicPermissions(a + [g] + b) == PublicPermissions(a + b)
    ensures |a + b| != 1 ==> Label(a + [g] + b) == Label(a + b)
  {
    PublicPermissionsAppend(a + [g], b);
    PublicPermissionsAppend(a, [g]);
    PublicPermissionsAppend(a, b);
    assert [g][..0] == [];
  }

  /**
   * Where the shortcut stops applying, adding a private grant can expose a public one: a lone
   * AllUsers READ grant is labelled `notpublic`, and the same grant beside an owner grant `READ`.
   */
  lemma SkippedGrantCanExposeLoneGrant(owner: Grant)
    requires !Contributes(owner)
    ensures Label([Grant(Some(AllUsersUri), Some("READ"))]) == NotPublic
    ensures Label([Grant(Some(AllUsersUri), Some("READ")), owner]) == "READ"
  {
    var r := Grant(Some(AllUsersUri), Some("READ"));
    SingleGrantShortcut(r);
    SkippedGrantContributesNothing([r], owner, []);
    assert [r] + [owner] + [] == [r, owner];
    assert [r] + [] == [r];
  }

  /**
   * A public label lists the collected permissions in grant order with duplicates kept:
   * splitting it at spaces gives back exactly the permissions of the AllUsers grants.
   */
  lemma LabelDecodes(grants: seq<Grant>)
    requires forall i, k :: (0 <= i < |grants| && grants[i].permission.Some? && 0 <= k < |grants[i].permission.value|
      ==> grants[i].permission.value[k] != ' ')
    requires Label(grants) != NotPublic
    ensures Split(Label(grants)) == PublicPermissions(grants)
  {
    var found := PublicPermissions(grants);
    forall j, k | 0 <= j < |found| && 0 <= k < |found[j]| ensures found[j][k] != ' ' {
      PublicPermissionsSource(grants, j);
    }
    SplitJoin(found);
  }

  /** Labels are not sorted: grant order shows in the label. */
  lemma LabelKeepsOrder()
    ensures Label([Grant(Some(AllUsersUri), Some("WRITE")), Grant(Some(AllUsersUri), Some("READ"))]) == "WRITE READ"
  {
    var w := Grant(Some(AllUsersUri), Some("WRITE"));
    var r := Grant(Some(AllUsersUri), Some("READ"));
    PublicPermissionsAppend([w], [r]);
    SingleGrantShortcut(w);
    SingleGrantShortcut(r);
    assert [w] + [r] == [w, r];
  }

  /** Labels are not deduplicated: a repeated permission shows twice; a non-public grant adds nothing. */
  lemma LabelKeepsDuplicates()
    ensures Label([Grant(Some(AllUsersUri), Some("READ")), Grant(Some(AllUsersUri), Some("READ")), Grant(None, Some("FULL_CONTROL"))]) == "READ READ"
  {
    var r := Grant(Some(AllUsersUri), Some("READ"));
    var o := Grant(None, Some("FULL_CONTROL"));
    SingleGrantShortcut(r);
    PublicPermissionsAppend([r], [r]);
    assert [r] + [r] == [r, r];
    SkippedGrantContributesNothing([r, r], o, []);
    assert [r, r] + [o] + [] == [r, r, o];
    assert [r, r] + [] == [r, r];
  }
}
