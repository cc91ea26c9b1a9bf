/**
 * Compliance documents of the HR add-on (`odhr_hr/models/compliance_document.py`): the stored
 * `is_expired` flag and the daily job that puts a to-do activity on every document that has
 * expired or expires today, assigned to the employee's user or else to the first HR user, at
 * most once per document, user and activity type. Dates are day numbers; "today" is an input.
 */
module Compliance {
  import opened Wrappers

  /** A calendar day, counted in days. */
  type Date = int

  const DocumentModel: string := "odhr.compliance.document"
  const ActivitySummary: string := "Compliance document expiring/expired"

  /** The fields of a document the rules read, and the stored flag they write. */
  datatype Document = Document(id: nat, employeeUser: Option<nat>, expiry: Option<Date>, isExpired: bool)

  /** `is_expired`: an expiry date is set and lies strictly before today. */
  predicate IsExpired(expiry: Option<Date>, today: Date) {
    expiry.Some? && expiry.value < today
  }

  /** `_compute_is_expired` over the records it is called on. */
  method ComputeIsExpired(docs: array<Document>, today: Date)
    modifies docs
    ensures forall i :: 0 <= i < docs.Length ==>
              docs[i] == old(docs[i]).(isExpired := IsExpired(old(docs[i]).expiry, today))
  {
    for i := 0 to docs.Length
      invariant forall j :: 0 <= j < i ==> docs[j] == old(docs[j]).(isExpired := IsExpired(old(docs[j]).expiry, today))
      invariant forall j :: i <= j < docs.Length ==> docs[j] == old(docs[j])
    {
      docs[i] := docs[i].(isExpired := IsExpired(docs[i].expiry, today));
    }
  }

  /** The job's search: an expiry date is set and is today or earlier. */
  predicate Due(d: Document, today: Date) {
    d.expiry.Some? && d.expiry.value <= today
  }

  /** Every expired document is due, and the due documents that are not expired are exactly those
    * expiring today. */
  lemma DueVersusExpired(d: Document, today: Date)
    ensures IsExpired(d.expiry, today) ==> Due(d, today)
    ensures Due(d, today) && !IsExpired(d.expiry, today) <==> d.expiry == Some(today)
  {
  }

  /** The documents the search returns, in their order. */
  function Selected(docs: seq<Document>, today: Date): (r: seq<Document>)
    ensures |r| <= |docs|
    ensures forall i :: 0 <= i < |r| ==> Due(r[i], today) && r[i] in docs
    ensures forall i :: 0 <= i < |docs| && Due(docs[i], today) ==> docs[i] in r
    ensures forall d :: multiset(r)[d] == if Due(d, today) then multiset(docs)[d] else 0
  {
    if docs == [] then []
    else
      var last := docs[|docs| - 1];
      var init := Selected(docs[..|docs| - 1], today);
      assert forall d :: d in docs[..|docs| - 1] ==> d in docs;
      assert docs == docs[..|docs| - 1] + [last];
      if Due(last, today) then init + [last] else init
  }

  /** Whom the activity goes to: the employee's user, else the first HR user, else nobody. */
  function Assignee(d: Document, hrUsers: seq<nat>): (r: Option<nat>)
    ensures d.employeeUser.Some? ==> r == d.employeeUser
    ensures d.employeeUser.None? && hrUsers != [] ==> r == Some(hrUsers[0])
    ensures r.None? <==> d.employeeUser.None? && hrUsers == []
  {
    if d.employeeUser.Some? then d.employeeUser
    else if hrUsers != [] then Some(hrUsers[0])
    else None
  }

  /** A scheduled activity; `key` is what the duplicate search compares. */
  datatype Activity = Activity(resModel: string, resId: nat, typeId: nat, userId: nat, summary: string)
  {
    function Key(): (string, nat, nat, nat) {
      (resModel, resId, typeId, userId)
    }
  }

  /** The activity the job would create for a document and user. */
  function ActivityFor(d: Document, user: nat, typeId: nat): Activity {
    Activity(DocumentModel, d.id, typeId, user, ActivitySummary)
  }

  /** The duplicate search: some activity has the key. */
  predicate HasKey(acts: seq<Activity>, key: (string, nat, nat, nat)) {
    exists i :: 0 <= i < |acts| && acts[i].Key() == key
  }

  /** One iteration of the job's loop. */
  function CronStep(acts: seq<Activity>, d: Document, typeId: nat, hrUsers: seq<nat>): seq<Activity> {
    match Assignee(d, hrUsers)
    case None => acts
    case Some(user) =>
      if HasKey(acts, ActivityFor(d, user, typeId).Key()) then acts
      else acts + [ActivityFor(d, user, typeId)]
  }

  /** The activities after the loop has run over `ds`. */
  function CronRun(acts: seq<Activity>, ds: seq<Document>, typeId: nat, hrUsers: seq<nat>): seq<Activity> {
    if ds == [] then acts
    else CronStep(CronRun(acts, ds[..|ds| - 1], typeId, hrUsers), ds[|ds| - 1], typeId, hrUsers)
  }

  /** The activity store the job writes to. */
  class ActivityStore {
    var activities: seq<Activity>

    constructor (initial: seq<Activity>)
      ensures activities == initial
    {
      activities := initial;
    }

    /** `cron_notify_expiring_documents`. */
    method CronNotifyExpiring(docs: seq<Document>, today: Date, typeId: nat, hrUsers: seq<nat>) returns (done: bool)
      modifies this
      ensures done
      ensures activities == CronRun(old(activities), Selected(docs, today), typeId, hrUsers)
    {
      var due := Selected(docs, today);
      for i := 0 to |due|
        invariant activities == CronRun(old(activities), due[..i], typeId, hrUsers)
      {
        assert due[..i + 1][..i] == due[..i];
        var d := due[i];
        var user := Assignee(d, hrUsers);
        if user.None? {
          continue;
        }
        var act := ActivityFor(d, user.value, typeId);
        if HasKey(activities, act.Key()) {
          continue;
        }
        activities := activities + [act];
      }
      assert due[..|due|] == due;
      return true;
    }
  }

  /** The job only adds activities, at most one per document it looks at. */
  lemma {:induction false} CronOnlyAppends(acts: seq<Activity>, ds: seq<Document>, typeId: nat, hrUsers: seq<nat>)
    ensures |acts| <= |CronRun(acts, ds, typeId, hrUsers)| <= |acts| + |ds|
    ensures CronRun(acts, ds, typeId, hrUsers)[..|acts|] == acts
  {
    if ds != [] {
      CronOnlyAppends(acts, ds[..|ds| - 1], typeId, hrUsers);
    }
  }

  /** `a` is the activity for one of the documents `ds`, for that document's assignee. */
  predicate ActivityOfSome(a: Activity, ds: seq<Document>, typeId: nat, hrUsers: seq<nat>) {
    exists j :: 0 <= j < |ds| && Assignee(ds[j], hrUsers).Some?
                && a == ActivityFor(ds[j], Assignee(ds[j], hrUsers).value, typeId)
  }

  /** Every activity the job adds is the one for some document it looked at, for that document's
    * assignee. */
  lemma {:induction false} CronAddsOnlyAssigned(acts: seq<Activity>, ds: seq<Document>, typeId: nat, hrUsers: seq<nat>)
    ensures var r := CronRun(acts, ds, typeId, hrUsers);
            forall i :: |acts| <= i < |r| ==> ActivityOfSome(r[i], ds, typeId, hrUsers)
  {
    if ds != [] {
      var init := ds[..|ds| - 1];
      var last := ds[|ds| - 1];
      CronAddsOnlyAssigned(acts, init, typeId, hrUsers);
      CronOnlyAppends(acts, init, typeId, hrUsers);
      var r0 := CronRun(acts, init, typeId, hrUsers);
      var r := CronRun(acts, ds, typeId, hrUsers);
      forall i | |acts| <= i < |r|
        ensures ActivityOfSome(r[i], ds, typeId, hrUsers)
      {
        if i < |r0| {
          assert r[i] == r0[i];
          assert ActivityOfSome(r0[i], init, typeId, hrUsers);
          var j :| 0 <= j < |init| && Assignee(init[j], hrUsers).Some?
                   && r0[i] == ActivityFor(init[j], Assignee(init[j], hrUsers).value, typeId);
          assert ds[j] == init[j];
        } else {
          assert r == r0 + [ActivityFor(last, Assignee(last, hrUsers).value, typeId)];
          assert r[i] == ActivityFor(ds[|ds| - 1], Assignee(ds[|ds| - 1], hrUsers).value, typeId);
        }
      }
    }
  }

  lemma HasKeyExtends(acts: seq<Activity>, more: seq<Activity>, key: (string, nat, nat, nat))
    requires HasKey(acts, key)
    ensures HasKey(acts + more, key)
  {
    var i :| 0 <= i < |acts| && acts[i].Key() == key;
    assert (acts + more)[i] == acts[i];
  }

  /** After a run, every looked-at document with an assignee has its activity. */
  lemma {:induction false} CronCovers(acts: seq<Activity>, ds: seq<Document>, typeId: nat, hrUsers: seq<nat>)
    ensures forall j :: 0 <= j < |ds| && Assignee(ds[j], hrUsers).Some? ==>
              HasKey(CronRun(acts, ds, typeId, hrUsers), ActivityFor(ds[j], Assignee(ds[j], hrUsers).value, typeId).Key())
  {
    if ds != [] {
      var init := ds[..|ds| - 1];
      var last := ds[|ds| - 1];
      CronCovers(acts, init, typeId, hrUsers);
      CronOnlyAppends(acts, init, typeId, hrUsers);
      var r0 := CronRun(acts, init, typeId, hrUsers);
      var r := CronRun(acts, ds, typeId, hrUsers);
      assert exists more :: r == r0 + more by {
        if r == r0 {
          assert r == r0 + [];
        }
      }
      var more :| r == r0 + more;
      forall j | 0 <= j < |ds| && Assignee(ds[j], hrUsers).Some?
        ensures HasKey(r, ActivityFor(ds[j], Assignee(ds[j], hrUsers).value, typeId).Key())
      {
        var key := ActivityFor(ds[j], Assignee(ds[j], hrUsers).value, typeId).Key();
        if j < |init| {
          assert ds[j] == init[j];
          HasKeyExtends(r0, more, key);
        } else if !HasKey(r0, key) {
          assert r[|r0|] == ActivityFor(last, Assignee(last, hrUsers).value, typeId);
        }
      }
    }
  }

  /** Running over documents whose activities all exist already changes nothing. */
  lemma {:induction false} CronIdleWhenCovered(acts: seq<Activity>, ds: seq<Document>, typeId: nat, hrUsers: seq<nat>)
    requires forall j :: 0 <= j < |ds| && Assignee(ds[j], hrUsers).Some? ==>
               HasKey(acts, ActivityFor(ds[j], Assignee(ds[j], hrUsers).value, typeId).Key())
    ensures CronRun(acts, ds, typeId, hrUsers) == acts
  {
    if ds != [] {
      var init := ds[..|ds| - 1];
      assert forall j :: 0 <= j < |init| ==> init[j] == ds[j];
      CronIdleWhenCovered(acts, init, typeId, hrUsers);
    }
  }

  /** A second run of the job over the same documents creates nothing new. */
  lemma CronIdempotent(acts: seq<Activity>, ds: seq<Document>, typeId: nat, hrUsers: seq<nat>)
    ensures CronRun(CronRun(acts, ds, typeId, hrUsers), ds, typeId, hrUsers) == CronRun(acts, ds, typeId, hrUsers)
  {
    CronCovers(acts, ds, typeId, hrUsers);
    CronIdleWhenCovered(CronRun(acts, ds, typeId, hrUsers), ds, typeId, hrUsers);
  }

  /** No two activities share a key. */
  predicate KeysUnique(acts: seq<Activity>) {
    forall i, j :: 0 <= i < j < |acts| ==> acts[i].Key() != acts[j].Key()
  }

  /** The job never creates a duplicate: unique keys stay unique. */
  lemma {:induction false} CronKeepsKeysUnique(acts: seq<Activity>, ds: seq<Document>, typeId: nat, hrUsers: seq<nat>)
    requires KeysUnique(acts)
    ensures KeysUnique(CronRun(acts, ds, typeId, hrUsers))
  {
    if ds != [] {
      var init := ds[..|ds| - 1];
      CronKeepsKeysUnique(acts, init, typeId, hrUsers);
      var r0 := CronRun(acts, init, typeId, hrUsers);
      var r := CronRun(acts, ds, typeId, hrUsers);
      if r != r0 {
        var last := ds[|ds| - 1];
        var act := ActivityFor(last, Assignee(last, hrUsers).value, typeId);
        assert r == r0 + [act];
        assert !HasKey(r0, act.Key());
        forall i, j | 0 <= i < j < |r|
          ensures r[i].Key() != r[j].Key()
        {
          if j == |r0| {
            assert r[i] == r0[i];
          } else {
            assert r[i] == r0[i] && r[j] == r0[j];
          }
        }
      }
    }
  }
}
