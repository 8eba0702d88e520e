/** The adapter from a raw JSearch or Adzuna-style record to the canonical
    job record.  The adapter is chosen by the presence of `job_id`; the
    JSearch branch copies every raw field over the canonical ones, the
    fallback branch keeps exactly the ten canonical fields. */
module NormalizeJob {
  import opened Common
  import opened JsValue

  /** The fields every canonical job carries. */
  const CanonicalFields: set<string> :=
    {"id", "title", "company", "description", "location", "jobType", "workMode", "salary", "url", "postedAt"}

  /** Shape sniffing: `job.job_id !== undefined`. */
  predicate IsJSearch(job: Record) {
    "job_id" in job
  }

  /** The JSearch location: `"<city>, <country>"` with a leading ", " cut
      off, or "Remote" when nothing is left. */
  function JSearchLocation(job: Record): (r: string)
    ensures r != []
  {
    var joined := TextOr(Field(job, "job_city"), "") + ", " + TextOr(Field(job, "job_country"), "");
    var cut := if IsPrefix(", ", joined) then joined[2..] else joined;
    if cut == [] then "Remote" else cut
  }

  /** The fields the JSearch branch computes before the raw record is spread over them. */
  function JSearchFields(job: Record, now: string): (r: Record)
    requires IsJSearch(job)
    ensures r.Keys == CanonicalFields
  {
    map[
      "id" := job["job_id"],
      "title" := OrElse(Field(job, "job_title"), Str("Unknown Title")),
      "company" := OrElse(Field(job, "employer_name"), Str("Unknown Company")),
      "description" := OrElse(Field(job, "job_description"), Str("No description available")),
      "location" := Str(JSearchLocation(job)),
      "jobType" := OrElse(Field(job, "job_employment_type"), Str("Full-time")),
      "workMode" := Str(if Truthy(Field(job, "job_is_remote")) then "Remote" else "On-site"),
      "salary" := Str("Not disclosed"),
      "url" := OrElse(Or(Field(job, "job_apply_link"), Field(job, "job_google_link")), Str("#")),
      "postedAt" := OrElse(Field(job, "job_posted_at_datetime_utc"), Str(now))
    ]
  }

  /** The salary text of the fallback branch: only the minimum is tested. */
  function FallbackSalary(job: Record): string {
    if Truthy(Field(job, "salary_min"))
    then ToText(Field(job, "salary_min")) + " - " + ToText(Field(job, "salary_max"))
    else "Not disclosed"
  }

  /** The fallback (Adzuna) branch: the ten canonical fields and nothing else. */
  function FallbackFields(job: Record, now: string, randomId: string): (r: Record)
    ensures r.Keys == CanonicalFields
  {
    map[
      "id" := OrElse(Or(Field(job, "id"), Field(job, "adref")), Str(randomId)),
      "title" := OrElse(Field(job, "title"), Str("Unknown Title")),
      "company" := OrElse(Or(Member(Field(job, "company"), "display_name"), Field(job, "company")),
                          Str("Unknown Company")),
      "description" := OrElse(Field(job, "description"), Str("No description available")),
      "location" := OrElse(Or(Member(Field(job, "location"), "display_name"), Field(job, "location")),
                           Str("Remote")),
      "jobType" := OrElse(Field(job, "contract_time"), Str("Full-time")),
      "workMode" := OrElse(Field(job, "contract_type"), Str("Remote")),
      "salary" := Str(FallbackSalary(job)),
      "url" := OrElse(Or(Field(job, "url"), Field(job, "redirect_url")), Str("#")),
      "postedAt" := OrElse(Or(Field(job, "created"), Field(job, "posted_at")), Str(now))
    ]
  }

  /** `normalizeJob`.  `now` is the ISO time the call reads from the clock and
      `randomId` the random base-36 string it draws. */
  function Normalize(job: Record, now: string, randomId: string): (r: Record)
    ensures IsJSearch(job) ==> r.Keys == CanonicalFields + job.Keys
    ensures IsJSearch(job) ==> forall k :: k in job ==> r[k] == job[k]
    ensures !IsJSearch(job) ==> r.Keys == CanonicalFields
  {
    if IsJSearch(job) then JSearchFields(job, now) + job
    else FallbackFields(job, now, randomId)
  }

  /** The JSearch location rules: "Remote" when city and country are both
      missing, the country alone when only the city is missing, and a
      trailing ", " kept when only the country is missing. */
  lemma JSearchLocationCases(job: Record)
    ensures !Truthy(Field(job, "job_city")) && !Truthy(Field(job, "job_country"))
            ==> JSearchLocation(job) == "Remote"
    ensures !Truthy(Field(job, "job_city")) && Truthy(Field(job, "job_country"))
            ==> JSearchLocation(job) == (var c := Text(job["job_country"]); if c == [] then "Remote" else c)
    ensures var city := TextOr(Field(job, "job_city"), "");
            city != [] && !IsPrefix(", ", city) && !Truthy(Field(job, "job_country"))
            ==> JSearchLocation(job) == city + ", "
  {
    var city := TextOr(Field(job, "job_city"), "");
    var country := TextOr(Field(job, "job_country"), "");
    var joined := city + ", " + country;
    if city == [] {
      assert joined == ", " + country;
      assert joined[2..] == country;
    } else if !IsPrefix(", ", city) {
      if |city| >= 2 {
        assert joined[..2] == city[..2];
      } else {
        assert joined[..2] == [city[0], ','];
      }
    }
  }

  /** In the JSearch branch a raw key always wins over the computed field,
      and a canonical field the raw record lacks keeps its computed value. */
  lemma JSearchSpreadWins(job: Record, now: string, randomId: string, k: string)
    requires IsJSearch(job)
    ensures k in job ==> Normalize(job, now, randomId)[k] == job[k]
    ensures k in CanonicalFields && k !in job ==> Normalize(job, now, randomId)[k] == JSearchFields(job, now)[k]
  {
  }

  /** JSearch work mode follows `job_is_remote`, and the salary is the
      sentinel unless the raw record has its own `salary`. */
  lemma JSearchWorkModeAndSalary(job: Record, now: string, randomId: string)
    requires IsJSearch(job)
    ensures "workMode" !in job ==>
      Normalize(job, now, randomId)["workMode"] == Str(if Truthy(Field(job, "job_is_remote")) then "Remote" else "On-site")
    ensures "salary" !in job ==> Normalize(job, now, randomId)["salary"] == Str("Not disclosed")
    ensures "salary" in job ==> Normalize(job, now, randomId)["salary"] == job["salary"]
  {
  }

  /** Fallback company and location prefer the nested `display_name`, then
      the raw value, then the sentinel. */
  lemma FallbackPreference(job: Record, now: string, randomId: string)
    requires !IsJSearch(job)
    ensures var r, c := Normalize(job, now, randomId), Field(job, "company");
      r["company"] == (if Truthy(Member(c, "display_name")) then Member(c, "display_name").value
                       else if Truthy(c) then c.value else Str("Unknown Company"))
    ensures var r, l := Normalize(job, now, randomId), Field(job, "location");
      r["location"] == (if Truthy(Member(l, "display_name")) then Member(l, "display_name").value
                        else if Truthy(l) then l.value else Str("Remote"))
  {
  }

  /** Fallback salary is "<min> - <max>" exactly when `salary_min` is truthy;
      the maximum is not checked and renders "undefined" when missing. */
  lemma FallbackSalaryCases(job: Record)
    ensures Truthy(Field(job, "salary_min")) ==>
      FallbackSalary(job) == Text(job["salary_min"]) + " - " + ToText(Field(job, "salary_max"))
    ensures !Truthy(Field(job, "salary_min")) ==> FallbackSalary(job) == "Not disclosed"
    ensures Truthy(Field(job, "salary_min")) && "salary_max" !in job ==>
      FallbackSalary(job) == Text(job["salary_min"]) + " - undefined"
  {
  }

  /** The fallback branch's salary field is that salary text. */
  lemma FallbackSalaryField(job: Record, now: string, randomId: string)
    requires !IsJSearch(job)
    ensures Normalize(job, now, randomId)["salary"] == Str(FallbackSalary(job))
  {
    assert FallbackFields(job, now, randomId)["salary"] == Str(FallbackSalary(job));
  }

  /** Missing title, description and link become the sentinels in both
      branches (in the JSearch branch, unless a raw key of the canonical
      name overrides them). */
  lemma MissingFieldDefaults(job: Record, now: string, randomId: string)
    ensures var r := Normalize(job, now, randomId);
      IsJSearch(job) ==>
        && (!Truthy(Field(job, "job_title")) && "title" !in job ==> r["title"] == Str("Unknown Title"))
        && (!Truthy(Field(job, "job_description")) && "description" !in job
            ==> r["description"] == Str("No description available"))
        && (!Truthy(Field(job, "job_apply_link")) && !Truthy(Field(job, "job_google_link")) && "url" !in job
            ==> r["url"] == Str("#"))
    ensures var r := Normalize(job, now, randomId);
      !IsJSearch(job) ==>
        && (!Truthy(Field(job, "title")) ==> r["title"] == Str("Unknown Title"))
        && (!Truthy(Field(job, "description")) ==> r["description"] == Str("No description available"))
        && (!Truthy(Field(job, "url")) && !Truthy(Field(job, "redirect_url")) ==> r["url"] == Str("#"))
  {
    if IsJSearch(job) {
      var f := JSearchFields(job, now);
      assert f["title"] == OrElse(Field(job, "job_title"), Str("Unknown Title"));
      assert f["description"] == OrElse(Field(job, "job_description"), Str("No description available"));
      assert f["url"] == OrElse(Or(Field(job, "job_apply_link"), Field(job, "job_google_link")), Str("#"));
    } else {
      var f := FallbackFields(job, now, randomId);
      assert f["title"] == OrElse(Field(job, "title"), Str("Unknown Title"));
      assert f["description"] == OrElse(Field(job, "description"), Str("No description available"));
      assert f["url"] == OrElse(Or(Field(job, "url"), Field(job, "redirect_url")), Str("#"));
    }
  }

  /** The first five fallback fields are truthy. */
  lemma FallbackLeadFilled(job: Record, now: string, randomId: string)
    requires randomId != []
    ensures var f := FallbackFields(job, now, randomId);
      && Truthy(Some(f["id"])) && Truthy(Some(f["title"])) && Truthy(Some(f["company"]))
      && Truthy(Some(f["description"])) && Truthy(Some(f["location"]))
  {
    var f := FallbackFields(job, now, randomId);
    OrElseTruthy(Or(Field(job, "id"), Field(job, "adref")), Str(randomId));
    OrElseTruthy(Field(job, "title"), Str("Unknown Title"));
    OrElseTruthy(Or(Member(Field(job, "company"), "display_name"), Field(job, "company")), Str("Unknown Company"));
    OrElseTruthy(Field(job, "description"), Str("No description available"));
    OrElseTruthy(Or(Member(Field(job, "location"), "display_name"), Field(job, "location")), Str("Remote"));
    assert f["id"] == OrElse(Or(Field(job, "id"), Field(job, "adref")), Str(randomId));
    assert f["title"] == OrElse(Field(job, "title"), Str("Unknown Title"));
    assert f["company"] == OrElse(Or(Member(Field(job, "company"), "display_name"), Field(job, "company")),
                                  Str("Unknown Company"));
    assert f["description"] == OrElse(Field(job, "description"), Str("No description available"));
    assert f["location"] == OrElse(Or(Member(Field(job, "location"), "display_name"), Field(job, "location")),
                                   Str("Remote"));
  }

  /** The last five fallback fields are truthy. */
  lemma FallbackTailFilled(job: Record, now: string, randomId: string)
    requires now != []
    ensures var f := FallbackFields(job, now, randomId);
      && Truthy(Some(f["jobType"])) && Truthy(Some(f["workMode"])) && Truthy(Some(f["salary"]))
      && Truthy(Some(f["url"])) && Truthy(Some(f["postedAt"]))
  {
    var f := FallbackFields(job, now, randomId);
    OrElseTruthy(Field(job, "contract_time"), Str("Full-time"));
    OrElseTruthy(Field(job, "contract_type"), Str("Remote"));
    OrElseTruthy(Or(Field(job, "url"), Field(job, "redirect_url")), Str("#"));
    OrElseTruthy(Or(Field(job, "created"), Field(job, "posted_at")), Str(now));
    assert f["jobType"] == OrElse(Field(job, "contract_time"), Str("Full-time"));
    assert f["workMode"] == OrElse(Field(job, "contract_type"), Str("Remote"));
    assert f["salary"] == Str(FallbackSalary(job));
    assert f["url"] == OrElse(Or(Field(job, "url"), Field(job, "redirect_url")), Str("#"));
    assert f["postedAt"] == OrElse(Or(Field(job, "created"), Field(job, "posted_at")), Str(now));
  }

  /** Every field the fallback branch computes is truthy, provided the
      random id is not empty. */
  lemma FallbackComputedFilled(job: Record, now: string, randomId: string)
    requires now != [] && randomId != []
    ensures forall k :: k in CanonicalFields ==> Truthy(Some(FallbackFields(job, now, randomId)[k]))
  {
    FallbackLeadFilled(job, now, randomId);
    FallbackTailFilled(job, now, randomId);
  }

  /** Every canonical field of a fallback record is filled with a truthy
      value, provided the random id is not empty: the adapter never leaves
      a required field missing. */
  lemma FallbackFieldsFilled(job: Record, now: string, randomId: string)
    requires !IsJSearch(job) && now != [] && randomId != []
    ensures forall k :: k in CanonicalFields ==> Truthy(Some(Normalize(job, now, randomId)[k]))
  {
    FallbackComputedFilled(job, now, randomId);
  }

  /** The texts the JSearch branch computes are truthy. */
  lemma JSearchLeadFilled(job: Record, now: string)
    requires IsJSearch(job)
    ensures var f := JSearchFields(job, now);
      && Truthy(Some(f["title"])) && Truthy(Some(f["company"]))
      && Truthy(Some(f["description"])) && Truthy(Some(f["location"]))
  {
    var f := JSearchFields(job, now);
    OrElseTruthy(Field(job, "job_title"), Str("Unknown Title"));
    OrElseTruthy(Field(job, "employer_name"), Str("Unknown Company"));
    OrElseTruthy(Field(job, "job_description"), Str("No description available"));
    assert f["title"] == OrElse(Field(job, "job_title"), Str("Unknown Title"));
    assert f["company"] == OrElse(Field(job, "employer_name"), Str("Unknown Company"));
    assert f["description"] == OrElse(Field(job, "job_description"), Str("No description available"));
    assert f["location"] == Str(JSearchLocation(job));
  }

  /** The remaining JSearch fields other than `id` are truthy. */
  lemma JSearchTailFilled(job: Record, now: string)
    requires IsJSearch(job) && now != []
    ensures var f := JSearchFields(job, now);
      && Truthy(Some(f["jobType"])) && Truthy(Some(f["workMode"])) && Truthy(Some(f["salary"]))
      && Truthy(Some(f["url"])) && Truthy(Some(f["postedAt"]))
  {
    var f := JSearchFields(job, now);
    OrElseTruthy(Field(job, "job_employment_type"), Str("Full-time"));
    OrElseTruthy(Or(Field(job, "job_apply_link"), Field(job, "job_google_link")), Str("#"));
    OrElseTruthy(Field(job, "job_posted_at_datetime_utc"), Str(now));
    assert f["jobType"] == OrElse(Field(job, "job_employment_type"), Str("Full-time"));
    assert f["workMode"] == Str(if Truthy(Field(job, "job_is_remote")) then "Remote" else "On-site");
    assert f["salary"] == Str("Not disclosed");
    assert f["url"] == OrElse(Or(Field(job, "job_apply_link"), Field(job, "job_google_link")), Str("#"));
    assert f["postedAt"] == OrElse(Field(job, "job_posted_at_datetime_utc"), Str(now));
  }

  /** Every field the JSearch branch computes, except `id`, is truthy. */
  lemma JSearchComputedFilled(job: Record, now: string)
    requires IsJSearch(job) && now != []
    ensures forall k :: k in CanonicalFields && k != "id" ==> Truthy(Some(JSearchFields(job, now)[k]))
  {
    JSearchLeadFilled(job, now);
    JSearchTailFilled(job, now);
  }

  /** In the JSearch branch every computed field the raw record does not
      override is truthy, except `id`, which is `job_id` as given. */
  lemma JSearchFieldsFilled(job: Record, now: string, randomId: string)
    requires IsJSearch(job) && now != []
    ensures forall k :: k in CanonicalFields && k !in job && k != "id" ==> Truthy(Some(Normalize(job, now, randomId)[k]))
  {
    JSearchComputedFilled(job, now);
    forall k | k in CanonicalFields && k !in job && k != "id"
      ensures Truthy(Some(Normalize(job, now, randomId)[k]))
    {
      JSearchSpreadWins(job, now, randomId, k);
    }
  }
}
