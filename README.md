# check-publics3 — a Dafny model of the bucket-audit engine

`check-publics3.py` audits S3 buckets for public access. For each bucket it fetches the ACL,
turns the grant list into a *permission label* (the sentinel `notpublic`, or the permissions
granted to the AllUsers group joined by spaces), and stores the label and a last-seen time in a
`buckets` table keyed by the unique bucket name. Each store call logs a warning for a bucket
seen for the first time (status `New Public ACL`) and for a known bucket whose new label is
public (`Changed to Public from Private` when the stored label was `notpublic`, otherwise
`Is Public now, and was public previously`).

This project models that engine:

- `acl.dfy` (module `Acl`): the `Grant` datatype (grantee URI and permission, each possibly
  absent), the label as a function (`Label`), and the grant loop as a method (`ComputeLabel`)
  proved equal to it, with lemmas for the one-grant shortcut, the exact "not public" condition,
  skipped grants, and the label's order and duplicates. `Split` undoes the space join on non-empty lists of
  space-free parts.
- `notify.dfy` (module `Notify`): the warning text of `notify_on_event` and lemmas that read its
  fields back.
- `state.dfy` (module `BucketState`): the table row `BucketRecord`, the classification
  `Classify`, the pure effect of one store call `Write`, and the class `Monitor` whose map field
  stands for the table and whose sequence field stands for the warning log. `WriteState` updates
  both in place and is proved to have the effect `Write` describes.
- `scan.dfy` (module `Scan`): the scan as a pure fold `Run` and the loop `EvaluateBuckets` proved
  equal to it, with lemmas about what a scan leaves in the table and how many warnings it logs.

Four behaviours of the code a reader might not expect, which the model keeps:
- The label is not sorted or deduplicated. It keeps grant order and repeats (`LabelKeepsOrder`,
  `LabelKeepsDuplicates`).
- The one-grant shortcut gives `notpublic` even for a lone AllUsers grant. The general rule would
  call that grant public (`SingleGrantShortcut`).
- The first sighting of a private bucket logs `New Public ACL` (`FirstSightingOfPrivateBucketWarns`).
- A fetch failure is not caught per bucket. It ends the whole scan (`Run`, `EvaluateBuckets`).

## Model

| member | source | states |
|---|---|---|
| Acl.ComputeLabel | check-publics3.py:79-97 | the one-pass grant loop (shortcut for one grant, collect AllUsers permissions, sentinel if none, else space join) returns exactly `Label(grants)` |
| Acl.SingleGrantShortcut | check-publics3.py:76-80 | a list of exactly one grant gets `notpublic` whatever the grant, while the general rule would give a lone AllUsers grant its permission |
| Acl.NotPublicExactly | check-publics3.py:85-97 | for any count other than one, the label is `notpublic` iff nothing was collected or only the literal permission `notpublic` was |
| Acl.PublicIffAllUsersGrant | check-publics3.py:85-94 | with two or more grants, each carrying a permission other than `notpublic`, the label is `notpublic` iff no grant names the AllUsers URI |
| Acl.SkippedGrantContributesNothing | check-publics3.py:86-91 | a grant with no grantee URI, another grantee, or no permission can be inserted anywhere without changing the collected permissions, nor the label unless the list held exactly one grant before, where the one-grant shortcut stops applying |
| Acl.SkippedGrantCanExposeLoneGrant | check-publics3.py:79-97 | adding an owner grant beside a lone AllUsers READ grant changes the label from `notpublic` to `READ`: a private grant can make a bucket's label public |
| Acl.PublicPermissionsAppend | check-publics3.py:85-89 | collecting permissions distributes over concatenation of grant lists, so grant order is kept |
| Acl.PublicPermissionsSource | check-publics3.py:86-89 | every collected permission is the permission of an AllUsers grant of the list |
| Acl.PublicPermissionsEmpty | check-publics3.py:85-93 | nothing is collected iff no grant is an AllUsers grant with a permission |
| Acl.JoinIsNotPublic | check-publics3.py:93-97 | a space join of one or more parts equals `notpublic` iff the parts are exactly `["notpublic"]` |
| Acl.SplitJoin | check-publics3.py:97 | splitting the space join of space-free parts at spaces gives the parts back |
| Acl.LabelDecodes | check-publics3.py:85-97 | a public label split at spaces is exactly the AllUsers permissions in grant order with duplicates kept |
| Acl.LabelKeepsOrder | check-publics3.py:85-97 | AllUsers grants WRITE then READ give the label `WRITE READ` (not sorted) |
| Acl.LabelKeepsDuplicates | check-publics3.py:85-97 | two AllUsers READ grants and an owner grant give `READ READ` (not deduplicated) |
| Notify.MessageFields | check-publics3.py:142-143 | the warning starts with `s3 bucket `, holds the bucket name and the label at fixed offsets, and ends with the status text |
| Notify.MessageDistinguishesStatus | check-publics3.py:142-143 | for the same bucket and label, different statuses give different warnings |
| BucketState.Classify | check-publics3.py:110-135 | no prior row gives `New Public ACL` whatever the label; with a prior row, a public label gives `Changed to Public from Private` iff the prior label was `notpublic`, else `Is Public now...`; a `notpublic` label gives nothing |
| BucketState.Write | check-publics3.py:101-139 | after a store call the bucket's row is (label, now), the key set gains only that bucket, every other row is unchanged, and exactly one warning is appended iff the bucket was unseen or the label is public, carrying the classified message |
| BucketState.RescanSameLabel | check-publics3.py:117-137 | storing the same label twice logs, on the second call, exactly one `Is Public now, and was public previously` warning for a public label and nothing for `notpublic`, and leaves the stored label unchanged |
| BucketState.WriteWarningNamesBucket | check-publics3.py:110-135 | the warning of a store call names the bucket and ends with the status chosen from the prior row |
| BucketState.Monitor.constructor | check-publics3.py:48-53 | a new store has an empty table and no warnings |
| BucketState.Monitor.NotifyOnEvent | check-publics3.py:142-144 | appends exactly the built warning to the log |
| BucketState.Monitor.WriteState | check-publics3.py:101-139 | the in-place insert or update leaves the table and log exactly as `Write` of the prior state, the decision taken from the row read before the update |
| Scan.Run | check-publics3.py:68-97 | a scan processes a prefix of the list, all of whose ACLs are available, stops only at a bucket whose ACL is missing, keeps earlier warnings, and adds at most one warning per processed bucket |
| Scan.RunKeepsOthers | check-publics3.py:69-97 | a bucket the scan did not process keeps its row, or stays absent |
| Scan.RunRecordsProcessed | check-publics3.py:69-97 | every processed bucket ends holding the label of its ACL and the scan time |
| Scan.RunPublicWarnsEach | check-publics3.py:117-135 | when every ACL gives a public label, a scan logs exactly one warning per processed bucket, so N rescans of one public bucket give N warnings |
| Scan.RunKnownPrivateSilent | check-publics3.py:117-137 | a scan of known buckets whose ACLs are all private logs nothing |
| Scan.FirstSightingOfPrivateBucketWarns | check-publics3.py:110-113 | an unseen owner-only bucket logs `New Public ACL` with label `notpublic`; scanning it again logs nothing more |
| Scan.EvaluateBuckets | check-publics3.py:68-97 | the loop computes each label, calls the store once per bucket in list order, stops at the first ACL it cannot fetch, and ends in the state and count `Run` gives |

## Left out

- Listing buckets and fetching ACLs (`get_s3_buckets`, `s3.get_bucket_acl`) are network calls. The bucket list is a parameter, and the ACLs are a map from bucket name to grant list. A bucket missing from the map stands for a failed fetch.
- Opening the sqlite database, schema creation (`initialize_sqlite_db`), commit and close are storage plumbing. The table is an in-memory map whose keys are the unique names. Database failures are not modelled.
- `time.time()` is a clock read. Each scan takes one integer `now`, used for every write of that scan, where the program reads the clock once per write.
- Logger and syslog setup, and the emission done by `logging.warning`, are I/O. Only the message text is kept, appended to the `warnings` log.
- `main` and the module-level globals only wire the parts together.
- The table's integer `id`/rowid column is not modelled. Rows are found by name, as the program's lookups do.
- A grant's missing `Grantee` and missing `URI` both become an absent URI. The program treats the two the same way: it skips the grant.
