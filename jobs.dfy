/** The job listing handler: a cache in front of the job search provider.
    The provider's answer is a parameter. */
module Jobs {
  import opened Common
  import opened JsValue
  import opened Cache

  /** Seconds a fresh listing stays cached. */
  const ListingTtl: nat := 1800

  /** A destructuring default: it applies only when the field is undefined. */
  function WithDefault(v: Option<Value>, d: string): Value {
    if v.Some? then v.value else Str(d)
  }

  /** `jobs_v2:${query}:${location}` with the defaults "developer" and "remote". */
  function CacheKey(query: Option<Value>, location: Option<Value>): (r: string)
    ensures IsPrefix("jobs_v2:", r)
  {
    "jobs_v2:" + Text(WithDefault(query, "developer")) + ":" + Text(WithDefault(location, "remote"))
  }

  /** A listing worth serving from the cache: a non-empty list. */
  predicate NonEmptyList(v: Option<Value>) {
    v.Some? && v.value.Arr? && |v.value.items| > 0
  }

  /** The answer of the job search service: the normalised jobs, or an error. */
  datatype Live = Listed(jobs: seq<Value>) | Threw

  /** Without query parameters the listing is cached under the default key. */
  lemma DefaultCacheKey()
    ensures CacheKey(None, None) == "jobs_v2:developer:remote"
    ensures CacheKey(Some(Str("default")), Some(Str("default"))) == "jobs_v2:default:default"
  {
  }

  /** `fetchJobs`. */
  method FetchJobs(store: Store, query: Option<Value>, location: Option<Value>, live: Live) returns (reply: Reply)
    requires store.Valid()
    modifies store
    ensures store.Valid()
    ensures var cached := old(store.Get(CacheKey(query, location)));
      && (NonEmptyList(cached) ==>
            reply == Success(map["source" := Str("cache"), "data" := cached.value]) && unchanged(store))
      && (!NonEmptyList(cached) && live.Threw? ==>
            reply == Failure(500, "Failed to fetch jobs") && unchanged(store))
      && (!NonEmptyList(cached) && live.Listed? ==>
            && reply == Success(map["source" := Str("api"), "data" := Arr(live.jobs)])
            && (live.jobs != [] ==> store.Wrote(CacheKey(query, location), Arr(live.jobs), Some(ListingTtl)))
            && (live.jobs == [] ==> unchanged(store)))
  {
    var key := CacheKey(query, location);
    var cached := store.Get(key);
    if NonEmptyList(cached) {
      return Success(map["source" := Str("cache"), "data" := cached.value]);
    }
    match live {
      case Threw =>
        return Failure(500, "Failed to fetch jobs");
      case Listed(jobs) =>
        if |jobs| > 0 {
          var _ := store.Set(key, Arr(jobs), Some(ListingTtl));
        }
        reply := Success(map["source" := Str("api"), "data" := Arr(jobs)]);
    }
  }
}
