/** Skill profiles: extraction from free text (a structured model call with a
    fixed-keyword fallback), the lower-case/de-duplicate normalisation of
    the model's answer, and the overlap percentage between a résumé profile
    and a job profile. */
module Skills {
  import opened Common

  /** The four categories of a skill profile. */
  datatype SkillProfile = SkillProfile(
    technical: seq<string>,
    soft: seq<string>,
    tools: seq<string>,
    industries: seq<string>)

  /** All tokens of a profile, category boundaries dropped. */
  function Flatten(p: SkillProfile): seq<string> {
    p.technical + p.soft + p.tools + p.industries
  }

  // ---------------------------------------------------------------------
  // Overlap score
  // ---------------------------------------------------------------------

  /** Some résumé token contains the job token or is contained in it. */
  predicate HasPartner(t: string, resume: seq<string>) {
    exists k :: 0 <= k < |resume| && (Contains(resume[k], t) || Contains(t, resume[k]))
  }

  /** Number of job tokens, duplicates included, that have a partner. */
  function MatchCount(jobs: seq<string>, resume: seq<string>): nat
    decreases |jobs|
  {
    if jobs == [] then 0
    else MatchCount(jobs[..|jobs| - 1], resume) + (if HasPartner(jobs[|jobs| - 1], resume) then 1 else 0)
  }

  /** `Math.round(m / n * 100)` over exact rationals: half rounds up. */
  function RoundPercent(m: nat, n: nat): nat
    requires n > 0
  {
    (200 * m + n) / (2 * n)
  }

  /** The overlap percentage `calculateSkillMatch` returns. */
  function SkillMatch(resume: SkillProfile, job: SkillProfile): nat {
    var r, j := Flatten(resume), Flatten(job);
    if |j| == 0 then 100
    else if |r| == 0 then 0
    else RoundPercent(MatchCount(j, r), |j|)
  }

  /** `calculateSkillMatch`: counts the matched job tokens in one pass. */
  method CalculateSkillMatch(resume: SkillProfile, job: SkillProfile) returns (pct: nat)
    ensures pct == SkillMatch(resume, job)
    ensures pct <= 100
    ensures Flatten(job) == [] ==> pct == 100
    ensures Flatten(job) != [] && Flatten(resume) == [] ==> pct == 0
  {
    SkillMatchBounded(resume, job);
    var resumeAll := Flatten(resume);
    var jobAll := Flatten(job);
    if |jobAll| == 0 {
      return 100;
    }
    if |resumeAll| == 0 {
      return 0;
    }
    var matches := 0;
    var i := 0;
    while i < |jobAll|
      invariant 0 <= i <= |jobAll|
      invariant matches == MatchCount(jobAll[..i], resumeAll)
    {
      assert jobAll[..i + 1][..i] == jobAll[..i];
      if HasPartner(jobAll[i], resumeAll) {
        matches := matches + 1;
      }
      i := i + 1;
    }
    assert jobAll[..i] == jobAll;
    pct := RoundPercent(matches, |jobAll|);
  }

  lemma {:induction false} MatchCountBounded(jobs: seq<string>, resume: seq<string>)
    ensures MatchCount(jobs, resume) <= |jobs|
    decreases |jobs|
  {
    if jobs != [] {
      MatchCountBounded(jobs[..|jobs| - 1], resume);
    }
  }

  lemma DivBelow(a: int, d: int, k: int)
    requires 0 <= a && 0 < d && a < k * d
    ensures a / d < k
  {
    var q := a / d;
    assert q * d <= a;
    assert (k - q) * d > 0;
  }

  lemma DivAtLeast(a: int, d: int, k: int)
    requires 0 < d && k * d <= a
    ensures k <= a / d
  {
    var q, r := a / d, a % d;
    assert a == q * d + r && r < d;
    assert (q + 1 - k) * d > 0;
  }

  lemma DivMonotone(a: int, b: int, d: int)
    requires 0 <= a <= b && 0 < d
    ensures a / d <= b / d
  {
    var qa := a / d;
    assert qa * d + a % d == a && 0 <= a % d;
    DivAtLeast(b, d, qa);
  }

  lemma RoundPercentBounded(m: nat, n: nat)
    requires 0 < n && m <= n
    ensures RoundPercent(m, n) <= 100
  {
    DivBelow(200 * m + n, 2 * n, 101);
  }

  /** The score is a percentage. */
  lemma SkillMatchBounded(resume: SkillProfile, job: SkillProfile)
    ensures SkillMatch(resume, job) <= 100
  {
    var r, j := Flatten(resume), Flatten(job);
    if |j| > 0 && |r| > 0 {
      MatchCountBounded(j, r);
      RoundPercentBounded(MatchCount(j, r), |j|);
    }
  }

  /** When every job token has a partner the score is 100; when none has, 0. */
  lemma {:induction false} MatchCountExtremes(jobs: seq<string>, resume: seq<string>)
    ensures (forall i :: 0 <= i < |jobs| ==> HasPartner(jobs[i], resume)) ==> MatchCount(jobs, resume) == |jobs|
    ensures (forall i :: 0 <= i < |jobs| ==> !HasPartner(jobs[i], resume)) ==> MatchCount(jobs, resume) == 0
    decreases |jobs|
  {
    if jobs != [] {
      MatchCountExtremes(jobs[..|jobs| - 1], resume);
    }
  }

  lemma SkillMatchAllOrNone(resume: SkillProfile, job: SkillProfile)
    requires Flatten(job) != [] && Flatten(resume) != []
    ensures (forall t :: t in Flatten(job) ==> HasPartner(t, Flatten(resume))) ==> SkillMatch(resume, job) == 100
    ensures (forall t :: t in Flatten(job) ==> !HasPartner(t, Flatten(resume))) ==> SkillMatch(resume, job) == 0
  {
    var r, j := Flatten(resume), Flatten(job);
    MatchCountExtremes(j, r);
    var n := |j|;
    DivBelow(200 * n + n, 2 * n, 101);
    DivAtLeast(200 * n + n, 2 * n, 100);
    DivBelow(n, 2 * n, 1);
  }

  lemma {:induction false} MatchCountAppend(a: seq<string>, b: seq<string>, resume: seq<string>)
    ensures MatchCount(a + b, resume) == MatchCount(a, resume) + MatchCount(b, resume)
    decreases |b|
  {
    if b != [] {
      var b' := b[..|b| - 1];
      assert (a + b)[..|a + b| - 1] == a + b';
      MatchCountAppend(a, b', resume);
    } else {
      assert a + b == a;
    }
  }

  /** Taking one token out of the list takes its contribution out of the count. */
  lemma MatchCountRemove(b: seq<string>, k: nat, resume: seq<string>)
    requires k < |b|
    ensures MatchCount(b, resume)
            == MatchCount(b[..k] + b[k + 1..], resume) + (if HasPartner(b[k], resume) then 1 else 0)
  {
    assert b == b[..k] + ([b[k]] + b[k + 1..]);
    MatchCountAppend(b[..k], [b[k]] + b[k + 1..], resume);
    MatchCountAppend([b[k]], b[k + 1..], resume);
    MatchCountAppend(b[..k], b[k + 1..], resume);
    assert [b[k]][..0] == [];
  }

  lemma MultisetRemove(a: seq<string>, b: seq<string>, k: nat)
    requires a != [] && k < |b| && multiset(a) == multiset(b) && b[k] == a[|a| - 1]
    ensures multiset(a[..|a| - 1]) == multiset(b[..k] + b[k + 1..])
  {
    var x := a[|a| - 1];
    assert a == a[..|a| - 1] + [x];
    assert b == b[..k] + [x] + b[k + 1..];
    assert multiset(a) == multiset(a[..|a| - 1]) + multiset{x};
    assert multiset(b) == multiset(b[..k]) + multiset{x} + multiset(b[k + 1..]);
    assert multiset(b[..k] + b[k + 1..]) == multiset(b[..k]) + multiset(b[k + 1..]);
    assert multiset(a[..|a| - 1]) == multiset(a) - multiset{x};
    assert multiset(b[..k] + b[k + 1..]) == multiset(b) - multiset{x};
  }

  /** The count does not depend on the order of the job tokens. */
  lemma {:induction false} MatchCountPermutation(a: seq<string>, b: seq<string>, resume: seq<string>)
    requires multiset(a) == multiset(b)
    ensures MatchCount(a, resume) == MatchCount(b, resume)
    decreases |a|
  {
    if a == [] {
      assert |b| == |multiset(b)| == 0;
    } else {
      var x := a[|a| - 1];
      assert x in multiset(b);
      var k :| 0 <= k < |b| && b[k] == x;
      MultisetRemove(a, b, k);
      MatchCountPermutation(a[..|a| - 1], b[..k] + b[k + 1..], resume);
      MatchCountRemove(b, k, resume);
    }
  }

  /** The count depends on the résumé tokens only as a set. */
  lemma {:induction false} MatchCountSameTokens(jobs: seq<string>, r1: seq<string>, r2: seq<string>)
    requires forall t :: t in r1 ==> t in r2
    ensures MatchCount(jobs, r1) <= MatchCount(jobs, r2)
    ensures (forall t :: t in r2 ==> t in r1) ==> MatchCount(jobs, r1) == MatchCount(jobs, r2)
    decreases |jobs|
  {
    if jobs != [] {
      var t := jobs[|jobs| - 1];
      MatchCountSameTokens(jobs[..|jobs| - 1], r1, r2);
      if HasPartner(t, r1) {
        var k :| 0 <= k < |r1| && (Contains(r1[k], t) || Contains(t, r1[k]));
        assert r1[k] in r1;
        var k2 :| 0 <= k2 < |r2| && r2[k2] == r1[k];
        assert HasPartner(t, r2);
      }
      if (forall u :: u in r2 ==> u in r1) && HasPartner(t, r2) {
        var k :| 0 <= k < |r2| && (Contains(r2[k], t) || Contains(t, r2[k]));
        assert r2[k] in r2;
        var k1 :| 0 <= k1 < |r1| && r1[k1] == r2[k];
        assert HasPartner(t, r1);
      }
    }
  }

  /** Category boundaries do not matter on either side: the score depends on
      the job tokens as a multiset and on the résumé tokens as a set. */
  lemma SkillMatchIgnoresCategories(r1: SkillProfile, j1: SkillProfile, r2: SkillProfile, j2: SkillProfile)
    requires multiset(Flatten(j1)) == multiset(Flatten(j2))
    requires forall t :: t in Flatten(r1) <==> t in Flatten(r2)
    ensures SkillMatch(r1, j1) == SkillMatch(r2, j2)
  {
    var a, b := Flatten(j1), Flatten(j2);
    var x, y := Flatten(r1), Flatten(r2);
    assert |a| == |multiset(a)| == |multiset(b)| == |b|;
    if y != [] {
      assert y[0] in x;
    }
    if x != [] {
      assert x[0] in y;
    }
    MatchCountPermutation(a, b, x);
    MatchCountSameTokens(b, x, y);
  }

  /** Adding résumé tokens never lowers the score for a fixed job profile. */
  lemma SkillMatchMonotone(r1: SkillProfile, r2: SkillProfile, job: SkillProfile)
    requires forall t :: t in Flatten(r1) ==> t in Flatten(r2)
    ensures SkillMatch(r1, job) <= SkillMatch(r2, job)
  {
    var j, x, y := Flatten(job), Flatten(r1), Flatten(r2);
    if |j| > 0 && |x| > 0 {
      assert x[0] in y;
      MatchCountSameTokens(j, x, y);
      DivMonotone(200 * MatchCount(j, x) + |j|, 200 * MatchCount(j, y) + |j|, 2 * |j|);
    }
  }

  // ---------------------------------------------------------------------
  // Keyword fallback
  // ---------------------------------------------------------------------

  const TechnicalKeywords: seq<string> := ["javascript", "typescript", "python", "java", "react", "angular", "vue",
    "node.js", "express", "django", "flask", "sql", "mongodb", "postgresql"]
  const SoftKeywords: seq<string> := ["leadership", "communication", "problem solving", "teamwork", "collaboration",
    "time management"]
  const ToolKeywords: seq<string> := ["git", "github", "docker", "kubernetes", "aws", "azure", "gcp", "jira", "jenkins"]
  const IndustryKeywords: seq<string> := ["finance", "healthcare", "e-commerce", "saas", "fintech", "edtech"]

  predicate NoDups<T(==)>(s: seq<T>) {
    forall i, j :: 0 <= i < j < |s| ==> s[i] != s[j]
  }

  /** r keeps some of the elements of s, in the order of s. */
  predicate Subsequence<T(==)>(r: seq<T>, s: seq<T>)
    decreases |s|
  {
    if r == [] then true
    else if s == [] then false
    else if r[0] == s[0] then Subsequence(r[1..], s[1..])
    else Subsequence(r, s[1..])
  }

  /** `keywords.filter(k => text.includes(k))` */
  function KeywordsIn(keywords: seq<string>, text: string): (r: seq<string>)
    ensures forall k :: k in r <==> k in keywords && Contains(text, k)
    ensures Subsequence(r, keywords)
    ensures NoDups(keywords) ==> NoDups(r)
    decreases |keywords|
  {
    if keywords == [] then []
    else
      var rest := KeywordsIn(keywords[1..], text);
      if Contains(text, keywords[0]) then
        assert keywords[0] !in keywords[1..] ==> keywords[0] !in rest;
        assert forall j :: 0 <= j < |keywords| - 1 ==> keywords[1..][j] == keywords[j + 1];
        [keywords[0]] + rest
      else
        rest
  }

  /** `extractSkillsBasic`: a case-insensitive scan for the fixed keywords. */
  function ExtractSkillsBasic(text: string): SkillProfile {
    var lower := ToLower(text);
    SkillProfile(
      KeywordsIn(TechnicalKeywords, lower),
      KeywordsIn(SoftKeywords, lower),
      KeywordsIn(ToolKeywords, lower),
      KeywordsIn(IndustryKeywords, lower))
  }

  lemma KeywordListsDistinct()
    ensures NoDups(TechnicalKeywords) && NoDups(SoftKeywords) && NoDups(ToolKeywords) && NoDups(IndustryKeywords)
  {
  }

  /** Each category holds exactly the keywords of its list that occur in the
      lower-cased text, in list order and without repetition. */
  lemma ExtractSkillsBasicExact(text: string)
    ensures var p, lower := ExtractSkillsBasic(text), ToLower(text);
      && (forall k :: k in p.technical <==> k in TechnicalKeywords && Contains(lower, k))
      && (forall k :: k in p.soft <==> k in SoftKeywords && Contains(lower, k))
      && (forall k :: k in p.tools <==> k in ToolKeywords && Contains(lower, k))
      && (forall k :: k in p.industries <==> k in IndustryKeywords && Contains(lower, k))
      && Subsequence(p.technical, TechnicalKeywords) && Subsequence(p.soft, SoftKeywords)
      && Subsequence(p.tools, ToolKeywords) && Subsequence(p.industries, IndustryKeywords)
      && NoDups(p.technical) && NoDups(p.soft) && NoDups(p.tools) && NoDups(p.industries)
  {
    KeywordListsDistinct();
  }

  /** The scan ignores case. */
  lemma ExtractSkillsBasicIgnoresCase(text: string)
    ensures ExtractSkillsBasic(ToLower(text)) == ExtractSkillsBasic(text)
  {
    ToLowerIdempotent(text);
  }

  /** "java" is reported whenever "javascript" occurs. */
  lemma JavaReportedWithJavascript(text: string)
    requires Contains(ToLower(text), "javascript")
    ensures "java" in ExtractSkillsBasic(text).technical
  {
    ContainsAt("javascript", "java", 0);
    ContainsTransitive(ToLower(text), "javascript", "java");
    assert "java" in TechnicalKeywords;
  }

  // ---------------------------------------------------------------------
  // Model path: normalisation of the structured answer
  // ---------------------------------------------------------------------

  /** The position of the first occurrence of x in xs. */
  function FirstIndex(xs: seq<string>, x: string): (i: nat)
    requires x in xs
    ensures i < |xs| && xs[i] == x && forall k :: 0 <= k < i ==> xs[k] != x
  {
    if xs[0] == x then 0 else 1 + FirstIndex(xs[1..], x)
  }

  /** Appending an element does not move the first occurrence of an element
      already present. */
  lemma FirstIndexAppend(xs: seq<string>, x: string, y: string)
    requires y in xs
    ensures FirstIndex(xs + [x], y) == FirstIndex(xs, y)
  {
    assert (xs + [x])[FirstIndex(xs, y)] == y;
  }

  /** Extending a list in first-occurrence order of `init` by one element
      keeps it in first-occurrence order of `init + [x]`: a new element goes
      last, a seen one adds nothing. */
  lemma FirstOrderAppend(init: seq<string>, x: string, rest: seq<string>)
    requires forall y :: y in rest <==> y in init
    requires forall i, j :: 0 <= i < j < |rest| ==> FirstIndex(init, rest[i]) < FirstIndex(init, rest[j])
    ensures var r := if x in rest then rest else rest + [x];
      forall i, j :: 0 <= i < j < |r| ==> FirstIndex(init + [x], r[i]) < FirstIndex(init + [x], r[j])
  {
    var xs := init + [x];
    forall y | y in rest ensures FirstIndex(xs, y) == FirstIndex(init, y) {
      FirstIndexAppend(init, x, y);
    }
    if x !in rest {
      var r := rest + [x];
      assert FirstIndex(xs, x) == |init| by {
        assert xs[|init|] == x;
      }
      forall i, j | 0 <= i < j < |r| ensures FirstIndex(xs, r[i]) < FirstIndex(xs, r[j]) {
        assert r[i] == rest[i];
        if j < |rest| {
          assert r[j] == rest[j];
        }
      }
    }
  }

  /** `[...new Set(xs)]`: the distinct elements of xs, listed in the order of
      their first occurrence. */
  function Dedupe(xs: seq<string>): (r: seq<string>)
    ensures NoDups(r)
    ensures forall x :: x in r <==> x in xs
    ensures forall i, j :: 0 <= i < j < |r| ==> FirstIndex(xs, r[i]) < FirstIndex(xs, r[j])
    decreases |xs|
  {
    if xs == [] then []
    else
      var init, x := xs[..|xs| - 1], xs[|xs| - 1];
      var rest := Dedupe(init);
      assert xs == init + [x];
      FirstOrderAppend(init, x, rest);
      if x in rest then rest else rest + [x]
  }

  /** De-duplicating a list without repetitions leaves it as it is. */
  lemma {:induction false} DedupeOfDistinct(xs: seq<string>)
    requires NoDups(xs)
    ensures Dedupe(xs) == xs
    decreases |xs|
  {
    if xs != [] {
      var init, x := xs[..|xs| - 1], xs[|xs| - 1];
      DedupeOfDistinct(init);
      assert x !in init;
      assert xs == init + [x];
    }
  }

  function LowerAll(xs: seq<string>): (r: seq<string>)
    ensures |r| == |xs| && forall i :: 0 <= i < |xs| ==> r[i] == ToLower(xs[i])
  {
    seq(|xs|, i requires 0 <= i < |xs| => ToLower(xs[i]))
  }

  /** `[...new Set(xs.map(s => s.toLowerCase()))]` */
  function NormalizeTokens(xs: seq<string>): (r: seq<string>)
    ensures NoDups(r)
    ensures forall t :: t in r ==> IsLowerCase(t)
    ensures forall t :: t in r <==> exists i :: 0 <= i < |xs| && ToLower(xs[i]) == t
  {
    var lowered := LowerAll(xs);
    forall t | t in lowered ensures IsLowerCase(t) {
      var i :| 0 <= i < |lowered| && lowered[i] == t;
      ToLowerIsLowerCase(xs[i]);
    }
    Dedupe(lowered)
  }

  /** Every category lower-case and without repetition. */
  predicate IsNormalized(p: SkillProfile) {
    && NoDups(p.technical) && NoDups(p.soft) && NoDups(p.tools) && NoDups(p.industries)
    && (forall t :: t in Flatten(p) ==> IsLowerCase(t))
  }

  function NormalizeProfile(p: SkillProfile): (r: SkillProfile)
    ensures IsNormalized(r)
  {
    SkillProfile(NormalizeTokens(p.technical), NormalizeTokens(p.soft),
                 NormalizeTokens(p.tools), NormalizeTokens(p.industries))
  }

  lemma {:induction false} LowerAllOfLowerCase(xs: seq<string>)
    requires forall t :: t in xs ==> IsLowerCase(t)
    ensures LowerAll(xs) == xs
  {
    forall i | 0 <= i < |xs| ensures ToLower(xs[i]) == xs[i] {
      assert IsLowerCase(xs[i]);
    }
  }

  /** Normalising a normalised profile changes nothing. */
  lemma NormalizeProfileIdempotent(p: SkillProfile)
    ensures NormalizeProfile(NormalizeProfile(p)) == NormalizeProfile(p)
  {
    var q := NormalizeProfile(p);
    LowerAllOfLowerCase(q.technical);
    LowerAllOfLowerCase(q.soft);
    LowerAllOfLowerCase(q.tools);
    LowerAllOfLowerCase(q.industries);
    DedupeOfDistinct(q.technical);
    DedupeOfDistinct(q.soft);
    DedupeOfDistinct(q.tools);
    DedupeOfDistinct(q.industries);
  }

  // ---------------------------------------------------------------------
  // Extraction entry points
  // ---------------------------------------------------------------------

  const ResumeExcerptLength: nat := 3000
  const JobExcerptLength: nat := 2000

  /** The varying part of an extraction prompt: the text excerpt it embeds
      (the instructions around it are fixed). */
  datatype ExtractionPrompt = ResumePrompt(excerpt: string) | JobPrompt(excerpt: string)

  /** The keyword lists are written in lower case, so the fallback output
      is normalised as well. */
  lemma TechnicalKeywordsLowerCase()
    ensures forall t :: t in TechnicalKeywords ==> IsLowerCase(t)
  {
    forall k | 0 <= k < |TechnicalKeywords| ensures IsLowerCase(TechnicalKeywords[k]) {}
  }

  lemma SoftKeywordsLowerCase()
    ensures forall t :: t in SoftKeywords ==> IsLowerCase(t)
  {
    forall k | 0 <= k < |SoftKeywords| ensures IsLowerCase(SoftKeywords[k]) {}
  }

  lemma ToolKeywordsLowerCase()
    ensures forall t :: t in ToolKeywords ==> IsLowerCase(t)
  {
    forall k | 0 <= k < |ToolKeywords| ensures IsLowerCase(ToolKeywords[k]) {}
  }

  lemma IndustryKeywordsLowerCase()
    ensures forall t :: t in IndustryKeywords ==> IsLowerCase(t)
  {
    forall k | 0 <= k < |IndustryKeywords| ensures IsLowerCase(IndustryKeywords[k]) {}
  }

  lemma ExtractSkillsBasicNormalized(text: string)
    ensures IsNormalized(ExtractSkillsBasic(text))
  {
    KeywordListsDistinct();
    TechnicalKeywordsLowerCase();
    SoftKeywordsLowerCase();
    ToolKeywordsLowerCase();
    IndustryKeywordsLowerCase();
    var p := ExtractSkillsBasic(text);
    forall t | t in Flatten(p) ensures IsLowerCase(t) {
      assert t in p.technical || t in p.soft || t in p.tools || t in p.industries;
    }
  }

  /** `extractSkillsFromResume`.  `model` stands for the structured model call
      with its schema parse; `None` is any failure of it. */
  function ExtractSkillsFromResume(text: string, model: ExtractionPrompt -> Option<SkillProfile>): (r: SkillProfile)
    ensures IsNormalized(r)
  {
    match model(ResumePrompt(Take(text, ResumeExcerptLength)))
    case Some(p) => NormalizeProfile(p)
    case None => ExtractSkillsBasicNormalized(text); ExtractSkillsBasic(text)
  }

  /** `extractSkillsFromJob` */
  function ExtractSkillsFromJob(text: string, model: ExtractionPrompt -> Option<SkillProfile>): (r: SkillProfile)
    ensures IsNormalized(r)
  {
    match model(JobPrompt(Take(text, JobExcerptLength)))
    case Some(p) => NormalizeProfile(p)
    case None => ExtractSkillsBasicNormalized(text); ExtractSkillsBasic(text)
  }

  /** When the model answers, only the first 3000 characters of a résumé and
      the first 2000 of a job description matter. */
  lemma ExtractionSeesOnlyExcerpt(t1: string, t2: string, model: ExtractionPrompt -> Option<SkillProfile>)
    ensures Take(t1, ResumeExcerptLength) == Take(t2, ResumeExcerptLength)
            && model(ResumePrompt(Take(t1, ResumeExcerptLength))).Some?
            ==> ExtractSkillsFromResume(t1, model) == ExtractSkillsFromResume(t2, model)
    ensures Take(t1, JobExcerptLength) == Take(t2, JobExcerptLength)
            && model(JobPrompt(Take(t1, JobExcerptLength))).Some?
            ==> ExtractSkillsFromJob(t1, model) == ExtractSkillsFromJob(t2, model)
  {
  }

  /** The fallback scans the whole text, past the prompt excerpt: a keyword
      placed after the first 3000 characters is still reported. */
  lemma FallbackScansWholeResume(pad: string, model: ExtractionPrompt -> Option<SkillProfile>)
    requires |pad| == ResumeExcerptLength
    requires model(ResumePrompt(pad)) == None
    ensures "python" in ExtractSkillsFromResume(pad + "python", model).technical
  {
    var text := pad + "python";
    assert Take(text, ResumeExcerptLength) == pad;
    assert ToLower(text)[3000..3006] == "python";
    ContainsAt(ToLower(text), "python", 3000);
    assert "python" in TechnicalKeywords;
  }
}
