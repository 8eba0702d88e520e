/** The per-user application ledger: a list stored under
    `applications:<userId>`, upserted by `jobId` when the user applies and
    edited in place when the status changes.  A value read from the store is
    a fresh copy, so the handlers work on a local list and write the whole
    list back.  Fields whose value is `undefined` vanish when the list is
    serialised for the store, and the functions below build that serialised
    form directly. */
module Applications {
  import opened Common
  import opened JsValue
  import opened Cache

  const AppliedStatus: string := "Applied"

  /** `applications:${userId}` */
  function LedgerKey(userId: Option<Value>): string {
    "applications:" + ToText(userId)
  }

  /** `app.jobId` for an element that is not `null`. */
  function JobIdOf(app: Value): Option<Value> {
    Member(Some(app), "jobId")
  }

  /** The result of `findIndex(app => app.jobId === jobId)`: reading `jobId`
      off a `null` element throws. */
  datatype Search = Found(index: nat) | Missing | Throws

  /** The search from position i on. */
  function FindFrom(apps: seq<Value>, jobId: Option<Value>, i: nat): (r: Search)
    requires i <= |apps|
    ensures r.Found? ==> i <= r.index < |apps|
    decreases |apps| - i
  {
    if i == |apps| then Missing
    else if apps[i].Null? then Throws
    else if StrictEq(JobIdOf(apps[i]), jobId) then Found(i)
    else FindFrom(apps, jobId, i + 1)
  }

  function FindIndex(apps: seq<Value>, jobId: Option<Value>): (r: Search)
    ensures r.Found? ==> r.index < |apps|
  {
    FindFrom(apps, jobId, 0)
  }

  /** The first n elements are neither `null` nor a match. */
  predicate Passed(apps: seq<Value>, jobId: Option<Value>, n: nat)
    requires n <= |apps|
  {
    forall j :: 0 <= j < n ==> !apps[j].Null? && !StrictEq(JobIdOf(apps[j]), jobId)
  }

  /** The search stops at the first match or the first `null`, whichever
      comes first, and reports a miss only after passing every element. */
  lemma {:induction false} FindFromSpec(apps: seq<Value>, jobId: Option<Value>, i: nat)
    requires i <= |apps| && Passed(apps, jobId, i)
    ensures var r := FindFrom(apps, jobId, i);
      && (r.Found? ==> i <= r.index < |apps| && Passed(apps, jobId, r.index)
                       && !apps[r.index].Null? && StrictEq(JobIdOf(apps[r.index]), jobId))
      && (r.Missing? <==> Passed(apps, jobId, |apps|))
      && (r.Throws? ==> exists j :: i <= j < |apps| && Passed(apps, jobId, j) && apps[j].Null?)
    decreases |apps| - i
  {
    if i < |apps| && !apps[i].Null? && !StrictEq(JobIdOf(apps[i]), jobId) {
      FindFromSpec(apps, jobId, i + 1);
    }
  }

  /** `findIndex` as a loop over the list. */
  method FindJob(apps: seq<Value>, jobId: Option<Value>) returns (r: Search)
    ensures r == FindIndex(apps, jobId)
  {
    var i := 0;
    while i < |apps|
      invariant 0 <= i <= |apps|
      invariant FindFrom(apps, jobId, i) == FindIndex(apps, jobId)
    {
      if apps[i].Null? {
        return Throws;
      }
      if StrictEq(JobIdOf(apps[i]), jobId) {
        return Found(i);
      }
      i := i + 1;
    }
    return Missing;
  }

  /** A record holding k only when v is defined. */
  function Defined(k: string, v: Option<Value>): Record {
    if v.Some? then map[k := v.value] else map[]
  }

  /** The fields an application request sets. */
  const RequestKeys: set<string> := {"jobId", "title", "company", "status", "timestamp"}

  /** The new application as stored. */
  function NewEntry(jobId: Option<Value>, title: Option<Value>, company: Option<Value>, now: string): (r: Record)
    ensures r.Keys <= RequestKeys
  {
    Defined("jobId", jobId) + Defined("title", title) + Defined("company", company)
    + map["status" := Str(AppliedStatus), "timestamp" := Str(now)]
  }

  /** The own fields `{...v}` copies: those of an object, none of a number or
      a boolean. */
  function SpreadOf(v: Value): Record {
    if v.Obj? then v.fields else map[]
  }

  /** `{ ...old, ...newApp }` as stored: the request fields replace the old
      ones, an undefined request field removes the old one, and the other
      old fields survive. */
  function Merge(prior: Value, jobId: Option<Value>, title: Option<Value>, company: Option<Value>, now: string): Record {
    (SpreadOf(prior) - {"jobId", "title", "company"}) + NewEntry(jobId, title, company, now)
  }

  /** The ledger after applying, or `None` when the search throws. */
  function Upsert(apps: seq<Value>, jobId: Option<Value>, title: Option<Value>, company: Option<Value>, now: string)
    : Option<seq<Value>>
  {
    match FindIndex(apps, jobId)
    case Found(i) => Some(apps[i := Obj(Merge(apps[i], jobId, title, company, now))])
    case Missing => Some(apps + [Obj(NewEntry(jobId, title, company, now))])
    case Throws => None
  }

  /** `existingApps || []`, and then the list the search runs over: `None`
      when the stored value is truthy but not a list, which has no
      `findIndex`. */
  function Ledger(stored: Option<Value>): Option<seq<Value>> {
    if !Truthy(stored) then Some([])
    else if stored.value.Arr? then Some(stored.value.items)
    else None
  }

  /** The whole effect of `applyJob` on the stored ledger. */
  function Apply(stored: Option<Value>, jobId: Option<Value>, title: Option<Value>, company: Option<Value>, now: string)
    : Option<seq<Value>>
  {
    match Ledger(stored)
    case None => None
    case Some(apps) => Upsert(apps, jobId, title, company, now)
  }

  /** A new entry holds exactly the defined request fields, the status and the time. */
  lemma NewEntryFields(jobId: Option<Value>, title: Option<Value>, company: Option<Value>, now: string)
    ensures var e := NewEntry(jobId, title, company, now);
      && Field(e, "status") == Some(Str(AppliedStatus))
      && Field(e, "timestamp") == Some(Str(now))
      && Field(e, "jobId") == jobId
      && Field(e, "title") == title
      && Field(e, "company") == company
  {
    var j, t, c := Defined("jobId", jobId), Defined("title", title), Defined("company", company);
    assert j.Keys <= {"jobId"} && t.Keys <= {"title"} && c.Keys <= {"company"};
  }

  /** The merged entry carries the request's fields and the new status and time. */
  lemma MergeRequestFields(prior: Value, jobId: Option<Value>, title: Option<Value>, company: Option<Value>,
                           now: string)
    ensures var m := Merge(prior, jobId, title, company, now);
      && m["status"] == Str(AppliedStatus)
      && m["timestamp"] == Str(now)
      && Field(m, "jobId") == jobId
      && Field(m, "title") == title
      && Field(m, "company") == company
  {
    var e := NewEntry(jobId, title, company, now);
    var m := Merge(prior, jobId, title, company, now);
    NewEntryFields(jobId, title, company, now);
    forall k | k in RequestKeys
      ensures Field(m, k) == Field(e, k)
    {
    }
  }

  /** The merged entry keeps every field of the old entry that the request
      does not set. */
  lemma MergeKeepsOthers(prior: Value, jobId: Option<Value>, title: Option<Value>, company: Option<Value>,
                         now: string)
    ensures var m := Merge(prior, jobId, title, company, now);
      forall k :: k in SpreadOf(prior) && k !in RequestKeys ==> k in m && m[k] == SpreadOf(prior)[k]
  {
    var e := NewEntry(jobId, title, company, now);
    assert e.Keys <= RequestKeys;
  }

  /** The merged entry carries the request's fields, the new status and
      time, and every other field of the old entry. */
  lemma MergeShape(prior: Value, jobId: Option<Value>, title: Option<Value>, company: Option<Value>, now: string)
    ensures var m := Merge(prior, jobId, title, company, now);
      && m["status"] == Str(AppliedStatus)
      && m["timestamp"] == Str(now)
      && Field(m, "jobId") == jobId
      && Field(m, "title") == title
      && Field(m, "company") == company
      && (forall k :: k in SpreadOf(prior) && k !in RequestKeys ==> k in m && m[k] == SpreadOf(prior)[k])
  {
    MergeRequestFields(prior, jobId, title, company, now);
    MergeKeepsOthers(prior, jobId, title, company, now);
  }

  /** Applying again for a listed job replaces the request fields of the
      first matching entry in place, keeps its other fields and leaves the
      rest of the ledger alone. */
  lemma UpsertReplaces(apps: seq<Value>, jobId: Option<Value>, title: Option<Value>, company: Option<Value>,
                       now: string, i: nat)
    requires FindIndex(apps, jobId) == Found(i)
    ensures var r := Upsert(apps, jobId, title, company, now);
      && r.Some? && |r.value| == |apps| && i < |apps|
      && r.value[i] == Obj(Merge(apps[i], jobId, title, company, now))
      && (forall j :: 0 <= j < |apps| && j != i ==> r.value[j] == apps[j])
  {
  }

  /** Applying for a job not yet listed appends exactly one entry. */
  lemma UpsertAppends(apps: seq<Value>, jobId: Option<Value>, title: Option<Value>, company: Option<Value>, now: string)
    requires FindIndex(apps, jobId) == Missing
    ensures Upsert(apps, jobId, title, company, now) == Some(apps + [Obj(NewEntry(jobId, title, company, now))])
    ensures forall j :: 0 <= j < |apps| ==> !StrictEq(JobIdOf(apps[j]), jobId)
  {
    FindFromSpec(apps, jobId, 0);
  }

  /** No two entries share a job id (two entries without one count as sharing it). */
  predicate UniqueJobIds(apps: seq<Value>) {
    forall i, j :: 0 <= i < j < |apps| ==> !StrictEq(JobIdOf(apps[i]), JobIdOf(apps[j]))
  }

  /** Strict equality between the values it accepts is identity. */
  lemma StrictEqIsEqual(a: Option<Value>, b: Option<Value>)
    requires StrictEq(a, b)
    ensures a == b
  {
  }

  /** Replacing the matching entry keeps the job ids unique. */
  lemma ReplaceKeepsUnique(apps: seq<Value>, jobId: Option<Value>, title: Option<Value>, company: Option<Value>,
                           now: string, i: nat)
    requires UniqueJobIds(apps) && FindIndex(apps, jobId) == Found(i)
    ensures UniqueJobIds(Upsert(apps, jobId, title, company, now).value)
  {
    FindFromSpec(apps, jobId, 0);
    var r := apps[i := Obj(Merge(apps[i], jobId, title, company, now))];
    assert Upsert(apps, jobId, title, company, now).value == r;
    StrictEqIsEqual(JobIdOf(apps[i]), jobId);
    MergeRequestFields(apps[i], jobId, title, company, now);
    assert JobIdOf(r[i]) == JobIdOf(apps[i]);
    assert forall j :: 0 <= j < |r| ==> JobIdOf(r[j]) == JobIdOf(apps[j]);
  }

  /** Appending an entry for an unlisted job keeps the job ids unique. */
  lemma AppendKeepsUnique(apps: seq<Value>, jobId: Option<Value>, title: Option<Value>, company: Option<Value>,
                          now: string)
    requires UniqueJobIds(apps) && FindIndex(apps, jobId) == Missing
    ensures UniqueJobIds(Upsert(apps, jobId, title, company, now).value)
  {
    FindFromSpec(apps, jobId, 0);
    var r := Upsert(apps, jobId, title, company, now).value;
    var e := Obj(NewEntry(jobId, title, company, now));
    assert JobIdOf(e) == jobId;
    assert forall j :: 0 <= j < |apps| ==> r[j] == apps[j];
  }

  /** Applying keeps the job ids of a ledger unique. */
  lemma UpsertKeepsUnique(apps: seq<Value>, jobId: Option<Value>, title: Option<Value>, company: Option<Value>, now: string)
    requires UniqueJobIds(apps)
    requires Upsert(apps, jobId, title, company, now).Some?
    ensures UniqueJobIds(Upsert(apps, jobId, title, company, now).value)
  {
    match FindIndex(apps, jobId)
    case Found(i) => ReplaceKeepsUnique(apps, jobId, title, company, now, i);
    case Missing => AppendKeepsUnique(apps, jobId, title, company, now);
  }

  /** The ledger step of `applyJob`: the search, then the merge in place or
      the push. */
  method UpsertLedger(apps: seq<Value>, jobId: Option<Value>, title: Option<Value>, company: Option<Value>,
                      now: string) returns (r: Option<seq<Value>>)
    ensures r == Upsert(apps, jobId, title, company, now)
  {
    var index := FindJob(apps, jobId);
    match index {
      case Throws =>
        return None;
      case Found(i) =>
        return Some(apps[i := Obj(Merge(apps[i], jobId, title, company, now))]);
      case Missing =>
        return Some(apps + [Obj(NewEntry(jobId, title, company, now))]);
    }
  }

  /** `applyJob`.  `now` is the ISO time of the request. */
  method ApplyJob(store: Store, userId: Option<Value>, jobId: Option<Value>, title: Option<Value>,
                  company: Option<Value>, userChoice: Option<Value>, now: string) returns (reply: Reply)
    requires store.Valid()
    modifies store
    ensures store.Valid()
    ensures !StrictEq(userChoice, Some(Str("Yes"))) ==>
      reply == Success(map["message" := Str("Job skipped")]) && unchanged(store)
    ensures StrictEq(userChoice, Some(Str("Yes"))) ==>
      var after := Apply(old(store.Get(LedgerKey(userId))), jobId, title, company, now);
      && (after.None? ==> reply == Crashed && unchanged(store))
      && (after.Some? ==> reply == Success(map["message" := Str("Applied successfully")])
                          && store.Wrote(LedgerKey(userId), Arr(after.value), None))
  {
    if !StrictEq(userChoice, Some(Str("Yes"))) {
      return Success(map["message" := Str("Job skipped")]);
    }
    var key := LedgerKey(userId);
    var existing := store.Get(key);
    var ledger := OrElse(existing, Arr([]));
    if !ledger.Arr? {
      return Crashed;
    }
    var apps := UpsertLedger(ledger.items, jobId, title, company, now);
    if apps.None? {
      return Crashed;
    }
    var _ := store.Set(key, Arr(apps.value), None);
    reply := Success(map["message" := Str("Applied successfully")]);
  }

  /** `target.status = status` as stored: an undefined status removes the field. */
  function Assign(fields: Record, k: string, v: Option<Value>): Record {
    if v.Some? then fields[k := v.value] else fields - {k}
  }

  /** What `updateStatus` does to a list it found. */
  datatype StatusUpdate = Updated(apps: seq<Value>, entry: Value) | NotListed | StatusThrows

  /** The status change on a ledger: `NotListed` when no entry matches, and
      a throw when the search meets `null` or the match is not an object
      (assigning a property of a primitive throws in strict mode). */
  function SetStatus(apps: seq<Value>, jobId: Option<Value>, status: Option<Value>): StatusUpdate {
    match FindIndex(apps, jobId)
    case Found(i) =>
      if apps[i].Obj? then
        var e := Obj(Assign(apps[i].fields, "status", status));
        Updated(apps[i := e], e)
      else StatusThrows
    case Missing => NotListed
    case Throws => StatusThrows
  }

  /** A status change touches only the `status` field of the first matching
      entry, keeps the job ids and so keeps them unique. */
  lemma SetStatusOnlyStatus(apps: seq<Value>, jobId: Option<Value>, status: Option<Value>)
    requires SetStatus(apps, jobId, status).Updated?
    ensures var u := SetStatus(apps, jobId, status);
      && |u.apps| == |apps|
      && (exists i :: 0 <= i < |apps| && FindIndex(apps, jobId) == Found(i) && u.apps[i] == u.entry
            && u.entry.Obj? && apps[i].Obj?
            && Field(u.entry.fields, "status") == status
            && u.entry.fields - {"status"} == apps[i].fields - {"status"}
            && forall j :: 0 <= j < |apps| && j != i ==> u.apps[j] == apps[j])
      && (UniqueJobIds(apps) ==> UniqueJobIds(u.apps))
  {
    var i := FindIndex(apps, jobId).index;
    var u := SetStatus(apps, jobId, status);
    assert JobIdOf(u.entry) == JobIdOf(apps[i]);
    assert forall j :: 0 <= j < |apps| ==> JobIdOf(u.apps[j]) == JobIdOf(apps[j]);
  }

  /** `updateStatus`. */
  method UpdateStatus(store: Store, userId: Option<Value>, jobId: Option<Value>, status: Option<Value>)
    returns (reply: Reply)
    requires store.Valid()
    modifies store
    ensures store.Valid()
    ensures var stored := old(store.Get(LedgerKey(userId)));
      && (!Truthy(stored) ==> reply == Failure(404, "No applications found") && unchanged(store))
      && (Truthy(stored) && !stored.value.Arr? ==> reply == Crashed && unchanged(store))
      && (Truthy(stored) && stored.value.Arr? ==>
            match SetStatus(stored.value.items, jobId, status)
            case NotListed => reply == Failure(404, "Application not found") && unchanged(store)
            case StatusThrows => reply == Crashed && unchanged(store)
            case Updated(apps, entry) =>
              reply == Success(map["data" := entry]) && store.Wrote(LedgerKey(userId), Arr(apps), None))
  {
    var key := LedgerKey(userId);
    var existing := store.Get(key);
    if !Truthy(existing) {
      return Failure(404, "No applications found");
    }
    if !existing.value.Arr? {
      return Crashed;
    }
    var apps := existing.value.items;
    var index := FindJob(apps, jobId);
    match index {
      case Throws =>
        return Crashed;
      case Missing =>
        return Failure(404, "Application not found");
      case Found(i) =>
        FindFromSpec(apps, jobId, 0);
        if !apps[i].Obj? {
          return Crashed;
        }
        var entry := Obj(Assign(apps[i].fields, "status", status));
        apps := apps[i := entry];
        var _ := store.Set(key, Arr(apps), None);
        reply := Success(map["data" := entry]);
    }
  }

  /** `getApplications`: the stored list, or the empty list when nothing
      truthy is stored. */
  function GetApplications(store: Store, userId: Option<Value>): (reply: Reply)
    reads store
    ensures Truthy(store.Get(LedgerKey(userId))) ==> Field(reply.body, "data") == store.Get(LedgerKey(userId))
    ensures !Truthy(store.Get(LedgerKey(userId))) ==> Field(reply.body, "data") == Some(Arr([]))
  {
    Success(map["data" := OrElse(store.Get(LedgerKey(userId)), Arr([]))])
  }
}
