/** The JoinRise adapter: unwrapping of the provider's payload and the
    mapping of one raw JoinRise record to the canonical job record.  The
    current time, the random id and the locale formatting of a salary figure
    are parameters. */
module JoinRise {
  import opened Common
  import opened JsValue
  import NormalizeJob

  /** `job.descriptionBreakdown?.<k>` */
  function Breakdown(job: Record, k: string): Option<Value> {
    Member(Field(job, "descriptionBreakdown"), k)
  }

  /** The salary text: the yearly range when both ends are truthy, otherwise
      the first truthy of `salary`, `salary_range`, `compensation`, otherwise
      the sentinel.  `fmt` is `toLocaleString`. */
  function Salary(job: Record, fmt: Value -> string): Value {
    var lo, hi := Breakdown(job, "salaryRangeMinYearly"), Breakdown(job, "salaryRangeMaxYearly");
    if Truthy(lo) && Truthy(hi) then Str("$" + fmt(lo.value) + " - $" + fmt(hi.value))
    else OrElse(Or(Or(Field(job, "salary"), Field(job, "salary_range")), Field(job, "compensation")),
                Str("Not disclosed"))
  }

  /** The canonical fields computed before the raw record is spread over them. */
  function Fields(job: Record, now: string, randomId: string, fmt: Value -> string): (r: Record)
    ensures r.Keys == NormalizeJob.CanonicalFields
  {
    map[
      "id" := OrElse(Or(Field(job, "_id"), Field(job, "id")), Str(randomId)),
      "title" := OrElse(Field(job, "title"), Str("Untitled Position")),
      "company" := OrElse(Or(Member(Field(job, "owner"), "companyName"), Field(job, "company")),
                          Str("Company Not Disclosed")),
      "description" := OrElse(Or(Breakdown(job, "oneSentenceJobSummary"), Field(job, "description")),
                              Str("No description available")),
      "location" := OrElse(Or(Field(job, "locationAddress"), Field(job, "location")), Str("Remote")),
      "jobType" := OrElse(Or(Or(Breakdown(job, "employmentType"), Field(job, "type")), Field(job, "employment_type")),
                          Str("Full-time")),
      "workMode" := OrElse(Or(Breakdown(job, "workModel"), Field(job, "type")), Str("Not specified")),
      "salary" := Salary(job, fmt),
      "postedAt" := OrElse(Or(Or(Field(job, "createdAt"), Field(job, "updatedAt")), Field(job, "posted_at")),
                           Str(now)),
      "url" := OrElse(Field(job, "url"), Str("#"))
    ]
  }

  /** `normalizeJoinRiseJob`: the computed fields with the raw record spread last. */
  function NormalizeJoinRise(job: Record, now: string, randomId: string, fmt: Value -> string): (r: Record)
    ensures r.Keys == NormalizeJob.CanonicalFields + job.Keys
    ensures forall k :: k in job ==> r[k] == job[k]
    ensures forall k :: k in NormalizeJob.CanonicalFields && k !in job ==> r[k] == Fields(job, now, randomId, fmt)[k]
  {
    Fields(job, now, randomId, fmt) + job
  }

  /** The salary rules: the range needs both yearly ends; otherwise the first
      truthy raw salary field; otherwise "Not disclosed". */
  lemma SalaryCases(job: Record, now: string, randomId: string, fmt: Value -> string)
    requires "salary" !in job
    ensures var r, lo, hi := NormalizeJoinRise(job, now, randomId, fmt),
                             Breakdown(job, "salaryRangeMinYearly"), Breakdown(job, "salaryRangeMaxYearly");
      && (Truthy(lo) && Truthy(hi) ==> r["salary"] == Str("$" + fmt(lo.value) + " - $" + fmt(hi.value)))
      && (!(Truthy(lo) && Truthy(hi)) && Truthy(Field(job, "salary_range"))
          ==> r["salary"] == job["salary_range"])
      && (!(Truthy(lo) && Truthy(hi)) && !Truthy(Field(job, "salary_range")) && Truthy(Field(job, "compensation"))
          ==> r["salary"] == job["compensation"])
      && (!(Truthy(lo) && Truthy(hi)) && !Truthy(Field(job, "salary_range")) && !Truthy(Field(job, "compensation"))
          ==> r["salary"] == Str("Not disclosed"))
  {
  }

  /** A raw `salary` key always wins, even over a complete yearly range. */
  lemma RawSalaryWins(job: Record, now: string, randomId: string, fmt: Value -> string)
    requires "salary" in job
    ensures NormalizeJoinRise(job, now, randomId, fmt)["salary"] == job["salary"]
  {
  }

  /** Company prefers the owner's company name, then `company`, then the sentinel. */
  lemma CompanyPreference(job: Record, now: string, randomId: string, fmt: Value -> string)
    requires "company" !in job
    ensures var r, o := NormalizeJoinRise(job, now, randomId, fmt), Member(Field(job, "owner"), "companyName");
      r["company"] == if Truthy(o) then o.value else Str("Company Not Disclosed")
  {
    var f := Fields(job, now, randomId, fmt);
    assert f["company"] == OrElse(Or(Member(Field(job, "owner"), "companyName"), None), Str("Company Not Disclosed"));
  }

  /** The text defaults, for any record: a record without `title` gets
      "Untitled Position" (a raw `title` is spread over it and wins), one
      without `company` or an owner's company name gets "Company Not
      Disclosed", and one without `description` or a one-sentence summary
      gets "No description available". */
  lemma DefaultTexts(job: Record, now: string, randomId: string, fmt: Value -> string)
    ensures var r := NormalizeJoinRise(job, now, randomId, fmt);
      && ("title" in job ==> r["title"] == job["title"])
      && ("title" !in job ==> r["title"] == Str("Untitled Position"))
      && ("company" !in job && !Truthy(Member(Field(job, "owner"), "companyName"))
          ==> r["company"] == Str("Company Not Disclosed"))
      && ("description" !in job && !Truthy(Breakdown(job, "oneSentenceJobSummary"))
          ==> r["description"] == Str("No description available"))
  {
    if "title" !in job {
      var f := Fields(job, now, randomId, fmt);
      assert f["title"] == OrElse(None, Str("Untitled Position"));
    }
    if "company" !in job {
      CompanyPreference(job, now, randomId, fmt);
    }
    DescriptionPreference(job, now, randomId, fmt);
  }

  /** `location` prefers `locationAddress`, then the sentinel, unless a raw
      `location` is spread over it. */
  lemma LocationPreference(job: Record, now: string, randomId: string, fmt: Value -> string)
    ensures var r := NormalizeJoinRise(job, now, randomId, fmt);
      && ("location" in job ==> r["location"] == job["location"])
      && ("location" !in job ==>
            r["location"] == (if Truthy(Field(job, "locationAddress")) then job["locationAddress"] else Str("Remote")))
  {
    if "location" !in job {
      var f := Fields(job, now, randomId, fmt);
      assert f["location"] == OrElse(Or(Field(job, "locationAddress"), None), Str("Remote"));
    }
  }

  /** `jobType` prefers the breakdown's employment type, then `type`, then
      `employment_type`, then "Full-time". */
  lemma JobTypePreference(job: Record, now: string, randomId: string, fmt: Value -> string)
    requires "jobType" !in job
    ensures var r, e := NormalizeJoinRise(job, now, randomId, fmt), Breakdown(job, "employmentType");
      r["jobType"] ==
        if Truthy(e) then e.value
        else if Truthy(Field(job, "type")) then job["type"]
        else if Truthy(Field(job, "employment_type")) then job["employment_type"]
        else Str("Full-time")
  {
    var f := Fields(job, now, randomId, fmt);
    assert f["jobType"] == OrElse(Or(Or(Breakdown(job, "employmentType"), Field(job, "type")),
                                     Field(job, "employment_type")), Str("Full-time"));
  }

  /** `workMode` prefers the breakdown's work model, then `type`, then "Not specified". */
  lemma WorkModePreference(job: Record, now: string, randomId: string, fmt: Value -> string)
    requires "workMode" !in job
    ensures var r, w := NormalizeJoinRise(job, now, randomId, fmt), Breakdown(job, "workModel");
      r["workMode"] ==
        if Truthy(w) then w.value
        else if Truthy(Field(job, "type")) then job["type"]
        else Str("Not specified")
  {
    var f := Fields(job, now, randomId, fmt);
    assert f["workMode"] == OrElse(Or(Breakdown(job, "workModel"), Field(job, "type")), Str("Not specified"));
  }

  /** The kind defaults, for any record: "Remote", "Full-time", "Not
      specified" and "Not disclosed" whenever the record has neither the
      field itself nor any of the fields it is taken from. */
  lemma DefaultKinds(job: Record, now: string, randomId: string, fmt: Value -> string)
    ensures var r := NormalizeJoinRise(job, now, randomId, fmt);
      && ("location" !in job && !Truthy(Field(job, "locationAddress")) ==> r["location"] == Str("Remote"))
      && (("jobType" !in job && !Truthy(Breakdown(job, "employmentType")) && !Truthy(Field(job, "type"))
           && !Truthy(Field(job, "employment_type"))) ==> r["jobType"] == Str("Full-time"))
      && (("workMode" !in job && !Truthy(Breakdown(job, "workModel")) && !Truthy(Field(job, "type")))
          ==> r["workMode"] == Str("Not specified"))
      && (("salary" !in job
           && !(Truthy(Breakdown(job, "salaryRangeMinYearly")) && Truthy(Breakdown(job, "salaryRangeMaxYearly")))
           && !Truthy(Field(job, "salary_range")) && !Truthy(Field(job, "compensation")))
          ==> r["salary"] == Str("Not disclosed"))
  {
    LocationPreference(job, now, randomId, fmt);
    if "jobType" !in job {
      JobTypePreference(job, now, randomId, fmt);
    }
    if "workMode" !in job {
      WorkModePreference(job, now, randomId, fmt);
    }
    if "salary" !in job {
      SalaryCases(job, now, randomId, fmt);
    }
  }

  /** The trace defaults, for any record: the link "#" without a raw `url`
      (a raw one wins), the clock's time without any of the three time
      fields, and the random id without `_id` or `id`. */
  lemma DefaultTrace(job: Record, now: string, randomId: string, fmt: Value -> string)
    ensures var r := NormalizeJoinRise(job, now, randomId, fmt);
      && ("url" in job ==> r["url"] == job["url"])
      && ("url" !in job ==> r["url"] == Str("#"))
      && (("postedAt" !in job && !Truthy(Field(job, "createdAt")) && !Truthy(Field(job, "updatedAt"))
           && !Truthy(Field(job, "posted_at"))) ==> r["postedAt"] == Str(now))
      && ("id" !in job && !Truthy(Field(job, "_id")) ==> r["id"] == Str(randomId))
  {
    if "url" !in job {
      var f := Fields(job, now, randomId, fmt);
      assert f["url"] == OrElse(None, Str("#"));
    }
    if "postedAt" !in job {
      PostedAtPreference(job, now, randomId, fmt);
    }
    IdPreference(job, now, randomId, fmt);
  }

  /** The first five computed fields are truthy whenever the random id is
      not empty. */
  lemma LeadFilled(job: Record, now: string, randomId: string, fmt: Value -> string)
    requires randomId != []
    ensures var f := Fields(job, now, randomId, fmt);
      && Truthy(Some(f["id"])) && Truthy(Some(f["title"])) && Truthy(Some(f["company"]))
      && Truthy(Some(f["description"])) && Truthy(Some(f["location"]))
  {
    var f := Fields(job, now, randomId, fmt);
    OrElseTruthy(Or(Field(job, "_id"), Field(job, "id")), Str(randomId));
    OrElseTruthy(Field(job, "title"), Str("Untitled Position"));
    OrElseTruthy(Or(Member(Field(job, "owner"), "companyName"), Field(job, "company")), Str("Company Not Disclosed"));
    OrElseTruthy(Or(Breakdown(job, "oneSentenceJobSummary"), Field(job, "description")), Str("No description available"));
    OrElseTruthy(Or(Field(job, "locationAddress"), Field(job, "location")), Str("Remote"));
    assert f["id"] == OrElse(Or(Field(job, "_id"), Field(job, "id")), Str(randomId));
    assert f["title"] == OrElse(Field(job, "title"), Str("Untitled Position"));
    assert f["company"] == OrElse(Or(Member(Field(job, "owner"), "companyName"), Field(job, "company")),
                                  Str("Company Not Disclosed"));
    assert f["description"] == OrElse(Or(Breakdown(job, "oneSentenceJobSummary"), Field(job, "description")),
                                      Str("No description available"));
    assert f["location"] == OrElse(Or(Field(job, "locationAddress"), Field(job, "location")), Str("Remote"));
  }

  /** The salary text is never empty: the range starts with "$", and the
      other two outcomes are truthy by construction. */
  lemma SalaryTruthy(job: Record, fmt: Value -> string)
    ensures Truthy(Some(Salary(job, fmt)))
  {
    var lo, hi := Breakdown(job, "salaryRangeMinYearly"), Breakdown(job, "salaryRangeMaxYearly");
    if Truthy(lo) && Truthy(hi) {
      assert ("$" + fmt(lo.value) + " - $" + fmt(hi.value))[0] == '$';
    } else {
      OrElseTruthy(Or(Or(Field(job, "salary"), Field(job, "salary_range")), Field(job, "compensation")),
                   Str("Not disclosed"));
    }
  }

  /** The last five computed fields are truthy whenever the clock text is
      not empty. */
  lemma TailFilled(job: Record, now: string, randomId: string, fmt: Value -> string)
    requires now != []
    ensures var f := Fields(job, now, randomId, fmt);
      && Truthy(Some(f["jobType"])) && Truthy(Some(f["workMode"])) && Truthy(Some(f["salary"]))
      && Truthy(Some(f["postedAt"])) && Truthy(Some(f["url"]))
  {
    var f := Fields(job, now, randomId, fmt);
    OrElseTruthy(Or(Or(Breakdown(job, "employmentType"), Field(job, "type")), Field(job, "employment_type")),
                 Str("Full-time"));
    OrElseTruthy(Or(Breakdown(job, "workModel"), Field(job, "type")), Str("Not specified"));
    SalaryTruthy(job, fmt);
    OrElseTruthy(Or(Or(Field(job, "createdAt"), Field(job, "updatedAt")), Field(job, "posted_at")), Str(now));
    OrElseTruthy(Field(job, "url"), Str("#"));
    assert f["jobType"] == OrElse(Or(Or(Breakdown(job, "employmentType"), Field(job, "type")),
                                     Field(job, "employment_type")), Str("Full-time"));
    assert f["workMode"] == OrElse(Or(Breakdown(job, "workModel"), Field(job, "type")), Str("Not specified"));
    assert f["salary"] == Salary(job, fmt);
    assert f["postedAt"] == OrElse(Or(Or(Field(job, "createdAt"), Field(job, "updatedAt")), Field(job, "posted_at")),
                                   Str(now));
    assert f["url"] == OrElse(Field(job, "url"), Str("#"));
  }

  /** Every field the adapter computes is truthy, provided the clock text
      and the random id are not empty. */
  lemma ComputedFilled(job: Record, now: string, randomId: string, fmt: Value -> string)
    requires now != [] && randomId != []
    ensures forall k :: k in Fields(job, now, randomId, fmt) ==> Truthy(Some(Fields(job, now, randomId, fmt)[k]))
  {
    LeadFilled(job, now, randomId, fmt);
    TailFilled(job, now, randomId, fmt);
  }

  /** Every canonical field the raw record does not override is truthy in
      the normalised record. */
  lemma FieldsFilled(job: Record, now: string, randomId: string, fmt: Value -> string)
    requires now != [] && randomId != []
    ensures forall k :: k in NormalizeJob.CanonicalFields && k !in job ==>
              Truthy(Some(NormalizeJoinRise(job, now, randomId, fmt)[k]))
  {
    ComputedFilled(job, now, randomId, fmt);
  }

  /** The one-sentence summary wins over the raw description in the computed
      field, but a raw `description` key is spread over it and wins in the
      end. */
  lemma DescriptionPreference(job: Record, now: string, randomId: string, fmt: Value -> string)
    ensures var r, s := NormalizeJoinRise(job, now, randomId, fmt), Breakdown(job, "oneSentenceJobSummary");
      && ("description" in job ==> r["description"] == job["description"])
      && ("description" !in job ==> r["description"] == if Truthy(s) then s.value else Str("No description available"))
  {
    if "description" !in job {
      var f := Fields(job, now, randomId, fmt);
      assert f["description"] == OrElse(Or(Breakdown(job, "oneSentenceJobSummary"), None), Str("No description available"));
    }
  }

  /** `postedAt` prefers `createdAt`, then `updatedAt`, then `posted_at`, then the clock. */
  lemma PostedAtPreference(job: Record, now: string, randomId: string, fmt: Value -> string)
    requires "postedAt" !in job
    ensures var r := NormalizeJoinRise(job, now, randomId, fmt);
      r["postedAt"] ==
        if Truthy(Field(job, "createdAt")) then job["createdAt"]
        else if Truthy(Field(job, "updatedAt")) then job["updatedAt"]
        else if Truthy(Field(job, "posted_at")) then job["posted_at"]
        else Str(now)
  {
  }

  /** `id` prefers `_id`; a raw `id` key is spread last and wins when `_id` is falsy. */
  lemma IdPreference(job: Record, now: string, randomId: string, fmt: Value -> string)
    ensures var r := NormalizeJoinRise(job, now, randomId, fmt);
      && ("id" in job ==> r["id"] == job["id"])
      && ("id" !in job ==> r["id"] == if Truthy(Field(job, "_id")) then job["_id"] else Str(randomId))
  {
    if "id" !in job {
      var f := Fields(job, now, randomId, fmt);
      assert f["id"] == OrElse(Or(Field(job, "_id"), None), Str(randomId));
    }
  }

  /** The outcome of the HTTP request: the parsed body, or a thrown error. */
  datatype FetchOutcome = Response(data: Option<Value>) | Failed

  /** `data?.result?.jobs || data?.data || data?.jobs || []` */
  function Unwrap(data: Option<Value>): Value {
    OrElse(Or(Or(Member(Member(data, "result"), "jobs"), Member(data, "data")), Member(data, "jobs")), Arr([]))
  }

  /** The fields an element of the payload contributes: its own for an object,
      none for a number or a boolean. */
  function AsRecord(v: Value): Record {
    if v.Obj? then v.fields else map[]
  }

  /** `getJobs`: `now(i)` and `randomId(i)` are what the clock and the random
      generator give while the i-th element is mapped.  Any error, including
      the TypeError a `null` element raises, yields the empty list. */
  function GetJobs(outcome: FetchOutcome, now: nat -> string, randomId: nat -> string, fmt: Value -> string)
    : (r: seq<Record>)
    ensures outcome.Response? && Unwrap(outcome.data).Arr?
            && (forall i :: 0 <= i < |Unwrap(outcome.data).items| ==> !Unwrap(outcome.data).items[i].Null?)
            ==> |r| == |Unwrap(outcome.data).items|
    ensures forall i :: 0 <= i < |r| ==> NormalizeJob.CanonicalFields <= r[i].Keys
  {
    match outcome
    case Failed => []
    case Response(data) =>
      var raw := Unwrap(data);
      if !raw.Arr? then []
      else if exists i :: 0 <= i < |raw.items| && raw.items[i].Null? then []
      else
        var r := seq(|raw.items|, i requires 0 <= i < |raw.items| =>
                     NormalizeJoinRise(AsRecord(raw.items[i]), now(i), randomId(i), fmt));
        assert forall i :: 0 <= i < |r| ==> r[i] == NormalizeJoinRise(AsRecord(raw.items[i]), now(i), randomId(i), fmt);
        r
  }

  /** The payload may hold the list under `result.jobs`, `data` or `jobs`,
      tried in that order; anything but a list gives no jobs. */
  lemma UnwrapPreference(data: Option<Value>)
    ensures Truthy(Member(Member(data, "result"), "jobs")) ==> Unwrap(data) == Member(Member(data, "result"), "jobs").value
    ensures !Truthy(Member(Member(data, "result"), "jobs")) && Truthy(Member(data, "data"))
            ==> Unwrap(data) == Member(data, "data").value
    ensures (!Truthy(Member(Member(data, "result"), "jobs")) && !Truthy(Member(data, "data"))
             && !Truthy(Member(data, "jobs"))) ==> Unwrap(data) == Arr([])
  {
  }

  /** A failed request, a payload without a list and a list holding `null`
      all give the empty list rather than an error. */
  lemma GetJobsEmptyOnError(outcome: FetchOutcome, now: nat -> string, randomId: nat -> string, fmt: Value -> string)
    ensures outcome.Failed? ==> GetJobs(outcome, now, randomId, fmt) == []
    ensures outcome.Response? && !Unwrap(outcome.data).Arr? ==> GetJobs(outcome, now, randomId, fmt) == []
    ensures outcome.Response? && Unwrap(outcome.data).Arr? && Null in Unwrap(outcome.data).items
            ==> GetJobs(outcome, now, randomId, fmt) == []
  {
    if outcome.Response? && Unwrap(outcome.data).Arr? && Null in Unwrap(outcome.data).items {
      var items := Unwrap(outcome.data).items;
      var i :| 0 <= i < |items| && items[i] == Null;
      assert items[i].Null?;
    }
  }

  /** Each element of a list without `null` is the normalised raw object at
      the same position. */
  lemma GetJobsElementwise(data: Option<Value>, now: nat -> string, randomId: nat -> string, fmt: Value -> string, i: nat)
    requires Unwrap(data).Arr? && Null !in Unwrap(data).items && i < |Unwrap(data).items|
    ensures var r, raw := GetJobs(Response(data), now, randomId, fmt), Unwrap(data).items[i];
      |r| == |Unwrap(data).items| && r[i] == NormalizeJoinRise(AsRecord(raw), now(i), randomId(i), fmt)
  {
    var items := Unwrap(data).items;
    forall j | 0 <= j < |items| ensures !items[j].Null? {
      assert items[j] in items;
    }
  }
}
