/** The score orchestrator: it finds the user's résumé, takes the jobs from
    one of two cached listings or from a live fetch, scores the first five
    one after the other and stores the scored list for an hour.  The live
    job list, the language model and `JSON.parse` are parameters. */
module Match {
  import opened Common
  import opened JsValue
  import opened Cache
  import opened AiService
  import Jobs
  import Resume

  const PrimaryJobsKey: string := "jobs_v2:default:default"
  const SecondaryJobsKey: string := "jobs:default:default"
  const ScoreLimit: nat := 5
  const ScoresTtl: nat := 3600
  const NoReasonText: string := "AI analysis complete"
  const NoJobsMessage: string :=
    "No jobs available to score. Please browse jobs first or wait for job data to load."

  /** `scores:${userId}` */
  function ScoresKey(user: Value): string {
    "scores:" + Text(user)
  }

  /** The job source chain: the first listing that is a non-empty list, or
      the live list. */
  function PickJobs(primary: Option<Value>, secondary: Option<Value>, live: seq<Value>): (r: seq<Value>)
    ensures Jobs.NonEmptyList(primary) ==> r == primary.value.items
    ensures r == [] <==> !Jobs.NonEmptyList(primary) && !Jobs.NonEmptyList(secondary) && live == []
  {
    if Jobs.NonEmptyList(primary) then primary.value.items
    else if Jobs.NonEmptyList(secondary) then secondary.value.items
    else live
  }

  /** `jobs.slice(0, 5)` */
  function FirstJobs(jobs: seq<Value>): (r: seq<Value>)
    ensures |r| == if |jobs| < ScoreLimit then |jobs| else ScoreLimit
    ensures forall i :: 0 <= i < |r| ==> r[i] == jobs[i]
  {
    if |jobs| <= ScoreLimit then jobs else jobs[..ScoreLimit]
  }

  /** `job.description || job.title` when it is a string; anything else
      (a job that is not an object, or a text that is not a string) makes
      `substring` throw inside `getMatchScore`. */
  function JobText(job: Value): Option<string> {
    if !job.Obj? then None
    else match Or(Field(job.fields, "description"), Field(job.fields, "title"))
      case Some(Str(s)) => Some(s)
      case _ => None
  }

  /** `{ ...job, matchScore, matchReason }` for one job, or `None` when
      scoring it throws. */
  function ScoreOne(resume: Value, job: Value, model: Prompt -> string, parse: string -> Option<Value>)
    : (r: Option<Value>)
    ensures r.Some? <==> resume.Str? && JobText(job).Some?
  {
    match JobText(job)
    case None => None
    case Some(text) =>
      if !resume.Str? then None
      else
        var m := GetMatchScore(resume.s, text, model, parse);
        var reason := if Truthy(Some(m.reason)) then m.reason else Str(NoReasonText);
        Some(Obj(job.fields + map["matchScore" := Num(m.score.n), "matchReason" := Arr([reason])]))
  }

  /** A scored job is the job with its score, between 0 and 100, and its
      reason list added; every other field is the job's own. */
  lemma ScoreOneShape(resume: Value, job: Value, model: Prompt -> string, parse: string -> Option<Value>)
    requires ScoreOne(resume, job, model, parse).Some?
    ensures var r := ScoreOne(resume, job, model, parse).value;
      && job.Obj? && r.Obj?
      && r.fields.Keys == job.fields.Keys + {"matchScore", "matchReason"}
      && (forall k :: k in job.fields && k != "matchScore" && k != "matchReason" ==> r.fields[k] == job.fields[k])
      && r.fields["matchScore"].Num? && 0 <= r.fields["matchScore"].n <= 100
  {
  }

  /** The reason list always holds the model's reason: the parsed reason
      defaults to a non-empty sentence, so "AI analysis complete" is never
      substituted. */
  lemma ReasonAlwaysFromReply(resume: string, job: Value, model: Prompt -> string, parse: string -> Option<Value>)
    requires JobText(job).Some?
    ensures ScoreOne(Str(resume), job, model, parse).value.fields["matchReason"]
            == Arr([GetMatchScore(resume, JobText(job).value, model, parse).reason])
  {
    var m := GetMatchScore(resume, JobText(job).value, model, parse);
    assert Truthy(Some(m.reason));
  }

  /** `f` applied to every element in order, or `None` as soon as one
      application fails: a loop whose body may throw. */
  function AllOrNothing(f: Value -> Option<Value>, xs: seq<Value>): (r: Option<seq<Value>>)
    ensures r.Some? <==> forall i :: 0 <= i < |xs| ==> f(xs[i]).Some?
    ensures r.Some? ==> |r.value| == |xs|
    ensures r.Some? ==> forall i :: 0 <= i < |xs| ==> Some(r.value[i]) == f(xs[i])
    decreases |xs|
  {
    if xs == [] then Some([])
    else
      var init := xs[..|xs| - 1];
      assert forall i :: 0 <= i < |init| ==> init[i] == xs[i];
      var prev := AllOrNothing(f, init);
      var e := f(xs[|xs| - 1]);
      if prev.None? || e.None? then None
      else Some(prev.value + [e.value])
  }

  /** Every job scored in order; `None` when scoring one of them throws. */
  function ScoreAll(resume: Value, jobs: seq<Value>, model: Prompt -> string, parse: string -> Option<Value>)
    : Option<seq<Value>>
  {
    AllOrNothing(Scorer(resume, model, parse), jobs)
  }

  /** The loop body of the scoring loop, as a function of one job. */
  function Scorer(resume: Value, model: Prompt -> string, parse: string -> Option<Value>): Value -> Option<Value>
  {
    job => ScoreOne(resume, job, model, parse)
  }

  /** The job source chain as the handler runs it: the second listing is
      read only when the first is not a non-empty list. */
  method LoadJobs(store: Store, live: seq<Value>) returns (jobs: seq<Value>)
    ensures jobs == PickJobs(store.Get(PrimaryJobsKey), store.Get(SecondaryJobsKey), live)
  {
    var listing := store.Get(PrimaryJobsKey);
    if !Jobs.NonEmptyList(listing) {
      listing := store.Get(SecondaryJobsKey);
    }
    if !Jobs.NonEmptyList(listing) {
      listing := Some(Arr(live));
    }
    jobs := listing.value.items;
  }

  /** The scoring loop: the jobs are handled one after the other, and the
      first one that throws ends the loop. */
  method RunAll(f: Value -> Option<Value>, xs: seq<Value>) returns (r: Option<seq<Value>>)
    ensures r == AllOrNothing(f, xs)
  {
    var done: seq<Value> := [];
    var i := 0;
    while i < |xs|
      invariant 0 <= i <= |xs|
      invariant AllOrNothing(f, xs[..i]) == Some(done)
    {
      var e := f(xs[i]);
      assert xs[..i + 1][..i] == xs[..i] && xs[..i + 1][i] == xs[i];
      if e.None? {
        return None;
      }
      done := done + [e.value];
      i := i + 1;
    }
    assert xs[..i] == xs;
    return Some(done);
  }

  /** `scoreJobs`. */
  method ScoreJobs(store: Store, userId: Option<Value>, live: seq<Value>,
                   model: Prompt -> string, parse: string -> Option<Value>) returns (reply: Reply)
    requires store.Valid()
    modifies store
    ensures store.Valid()
    ensures !Truthy(userId) ==> reply == Failure(400, "UserId is required") && unchanged(store)
    ensures Truthy(userId) && !Truthy(old(store.Get(Resume.ResumeKey(userId.value)))) ==>
      reply == Failure(404, "Resume not found. Please upload one first.") && unchanged(store)
    ensures Truthy(userId) && Truthy(old(store.Get(Resume.ResumeKey(userId.value)))) ==>
      var resume := old(store.Get(Resume.ResumeKey(userId.value))).value;
      var jobs := PickJobs(old(store.Get(PrimaryJobsKey)), old(store.Get(SecondaryJobsKey)), live);
      && (jobs == [] ==> reply == Failure(400, NoJobsMessage) && unchanged(store))
      && (jobs != [] ==>
            match ScoreAll(resume, FirstJobs(jobs), model, parse)
            case None => reply == Crashed && unchanged(store)
            case Some(scored) =>
              reply == Success(map["data" := Arr(scored)])
              && store.Wrote(ScoresKey(userId.value), Arr(scored), Some(ScoresTtl)))
  {
    if !Truthy(userId) {
      return Failure(400, "UserId is required");
    }
    var resume := store.Get(Resume.ResumeKey(userId.value));
    if !Truthy(resume) {
      return Failure(404, "Resume not found. Please upload one first.");
    }
    var all := LoadJobs(store, live);
    if |all| == 0 {
      return Failure(400, NoJobsMessage);
    }
    var scored := RunAll(Scorer(resume.value, model, parse), FirstJobs(all));
    if scored.None? {
      return Crashed;
    }
    var _ := store.Set(ScoresKey(userId.value), Arr(scored.value), Some(ScoresTtl));
    reply := Success(map["data" := Arr(scored.value)]);
  }

  /** The listing the job handler caches when called without parameters is
      not one the orchestrator reads: it reads the listing cached for the
      query "default" in the location "default". */
  lemma DefaultListingNotRead()
    ensures Jobs.CacheKey(None, None) != PrimaryJobsKey
    ensures Jobs.CacheKey(Some(Str("default")), Some(Str("default"))) == PrimaryJobsKey
  {
    Jobs.DefaultCacheKey();
    assert |Jobs.CacheKey(None, None)| != |PrimaryJobsKey|;
  }

  /** A résumé uploaded for a user is stored under the key the orchestrator
      reads for that user. */
  lemma UploadKeyIsScoreKey(userId: Value)
    requires Truthy(Some(userId))
    ensures Resume.ResumeKey(OrElse(Some(userId), Str(Resume.GuestUser))) == Resume.ResumeKey(userId)
  {
  }
}
