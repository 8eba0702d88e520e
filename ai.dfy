/** The deterministic half of the AI service: the cleanup of a model reply
    before `JSON.parse`, the defaulting and clamping of a match score, the
    fixed fallbacks, and the job context and fallback text of the chat
    assistant.  The language model is a parameter `model` from the variable
    parts of a prompt to the reply text, and `JSON.parse` is a parameter
    `parse` that yields `None` where it throws. */
module AiService {
  import opened Common
  import opened JsValue

  /** The variable parts of the two prompt templates. */
  datatype Prompt =
    | MatchPrompt(resume: string, job: string)
    | ChatPrompt(context: string, query: string)

  const Fence: string := "```"
  const JsonFence: string := "```json"

  /** `.replace(/^[^{]*{/, '{')`: drops what precedes the first `{`. */
  function DropBeforeFirstBrace(s: string): (r: string)
    ensures '{' !in s ==> r == s
    ensures '{' in s ==> r != [] && r[0] == '{' && IsSuffix(r, s) && '{' !in s[..|s| - |r|]
    decreases |s|
  {
    if '{' !in s || s[0] == '{' then s
    else
      var r := DropBeforeFirstBrace(s[1..]);
      assert s[..|s| - |r|] == [s[0]] + s[1..][..|s| - 1 - |r|];
      r
  }

  /** `.replace(/}[^}]*$/, '}')`: drops what follows the last `}`. */
  function DropAfterLastBrace(s: string): (r: string)
    ensures '}' !in s ==> r == s
    ensures '}' in s ==> r != [] && r[|r| - 1] == '}' && IsPrefix(r, s) && '}' !in s[|r|..]
    decreases |s|
  {
    if '}' !in s || s[|s| - 1] == '}' then s
    else
      var r := DropAfterLastBrace(s[..|s| - 1]);
      assert s[|r|..] == s[..|s| - 1][|r|..] + [s[|s| - 1]];
      r
  }

  /** The cleanup applied to a model reply before it is parsed. */
  function Cleanup(raw: string): string {
    Trim(DropAfterLastBrace(DropBeforeFirstBrace(Unfenced(raw))))
  }

  /** Removal of a fence never joins backticks into a new fence. */
  lemma NoFenceAfterTick(s: string)
    requires s != [] && s[0] == '`' && !IsPrefix(Fence, s)
    ensures !IsPrefix("``", RemoveAll(s[1..], Fence))
  {
    if |s| >= 2 {
      if s[1] != '`' {
        RemoveAllKeepsHead(s[1..], Fence);
      } else {
        assert s[1..][1..] == s[2..];
        if |s| >= 3 {
          assert s[2] != '`';
          assert !IsPrefix(Fence, s[1..]);
          assert RemoveAll(s[1..], Fence) == [s[1]] + RemoveAll(s[2..], Fence);
          RemoveAllKeepsHead(s[2..], Fence);
          var rest := RemoveAll(s[1..], Fence);
          assert rest[1] == s[2];
          assert rest[..2] != "``" by {
            assert rest[..2][1] == s[2];
          }
        }
      }
    }
  }

  /** `.replace(/```/g, '')` leaves no fence behind. */
  lemma {:induction false} RemoveFenceFree(s: string)
    ensures Free(RemoveAll(s, Fence), Fence)
    decreases |s|
  {
    if s == [] {
    } else if IsPrefix(Fence, s) {
      RemoveFenceFree(s[|Fence|..]);
    } else {
      RemoveFenceFree(s[1..]);
      var r := RemoveAll(s, Fence);
      assert r == [s[0]] + RemoveAll(s[1..], Fence);
      assert r[1..] == RemoveAll(s[1..], Fence);
      if s[0] == '`' {
        NoFenceAfterTick(s);
      }
    }
  }

  /** A part of a text without fences has no fence either. */
  lemma FreeWithin(s: string, u: string, t: string)
    requires Contains(s, u)
    ensures Contains(u, t) ==> Contains(s, t)
  {
    if Contains(u, t) {
      ContainsTransitive(s, u, t);
    }
  }

  /** The cleanup removes every code fence. */
  lemma CleanupFenceFree(raw: string)
    ensures Free(Cleanup(raw), Fence)
  {
    var u := Unfenced(raw);
    RemoveFenceFree(RemoveAll(raw, JsonFence));
    var v := DropBeforeFirstBrace(u);
    assert u[|u| - |v|..|u| - |v| + |v|] == v;
    ContainsAt(u, v, |u| - |v|);
    var w := DropAfterLastBrace(v);
    assert v[0..|w|] == w;
    ContainsAt(v, w, 0);
    ContainsTransitive(u, v, w);
    FreeWithin(u, w, Fence);
    FreeWithin(w, Trim(w), Fence);
  }

  /** The text the cleanup works on once the fences are gone. */
  function Unfenced(raw: string): string {
    RemoveAll(RemoveAll(raw, JsonFence), Fence)
  }

  /** Text without braces comes out of the cleanup as the trimmed
      fence-free text. */
  lemma CleanupWithoutBraces(raw: string)
    requires '{' !in Unfenced(raw) && '}' !in Unfenced(raw)
    ensures Cleanup(raw) == Trim(Unfenced(raw))
  {
  }

  /** The cleanup starts at the first `{` of the fence-free text. */
  lemma CleanupOpensWithBrace(raw: string)
    requires '{' in Unfenced(raw)
    ensures Cleanup(raw) != [] && Cleanup(raw)[0] == '{'
  {
    var v := DropBeforeFirstBrace(Unfenced(raw));
    var w := DropAfterLastBrace(v);
    assert w != [] && w[0] == '{' by {
      if '}' in v {
        assert w[0] == v[0];
      }
    }
    TrimKeepsHead(w);
  }

  /** The cleanup ends at the last `}` that follows the first `{`, or at the
      last `}` of a text without `{`. */
  lemma CleanupClosesWithBrace(raw: string)
    requires '}' in DropBeforeFirstBrace(Unfenced(raw))
    ensures Cleanup(raw) != [] && Cleanup(raw)[|Cleanup(raw)| - 1] == '}'
  {
    var v := DropBeforeFirstBrace(Unfenced(raw));
    var w := DropAfterLastBrace(v);
    assert Cleanup(raw) == Trim(w);
    assert w != [] && w[|w| - 1] == '}';
    TrimKeepsLast(w);
  }

  /** Trimming keeps a first character that is not white space. */
  lemma TrimKeepsHead(s: string)
    requires s != [] && !IsJsWhitespace(s[0])
    ensures Trim(s) != [] && Trim(s)[0] == s[0]
  {
    assert TrimStart(s) == s;
  }

  /** Trimming keeps a last character that is not white space. */
  lemma TrimKeepsLast(s: string)
    requires s != [] && !IsJsWhitespace(s[|s| - 1])
    ensures Trim(s) != [] && Trim(s)[|Trim(s)| - 1] == s[|s| - 1]
  {
    var t := TrimStart(s);
    assert t != [] by {
      assert forall i :: 0 <= i < |s| - |t| ==> IsJsWhitespace(s[i]);
    }
    assert t[|t| - 1] == s[|s| - 1];
    assert TrimEnd(t) == t;
  }

  /** The parsed score and reason, as `getMatchScore` returns them. */
  datatype MatchScore = MatchScore(score: Number, reason: Value)

  const ExcerptLength: nat := 1500
  const DefaultScore: int := 75
  const DefaultReason: string := "Your profile shows strong alignment with the position requirements"
  const FallbackReason: string := "Strong skill alignment with position requirements"

  /** The result when the cleaned reply does not parse. */
  const Fallback: MatchScore := MatchScore(Finite(DefaultScore), Str(FallbackReason))

  /** `Math.min(100, Math.max(0, parsed.score || 75))` as written. */
  function ClampAsWritten(score: Option<Value>): Number {
    MinWith(100, MaxWith(0, ToNumber(OrElse(score, Num(DefaultScore)))))
  }

  /** The score rule as evidently intended: a score that does not coerce to
      a number falls back to the default, like a missing one. */
  function Clamp(score: Option<Value>): (r: Number)
    ensures r.Finite? && 0 <= r.n <= 100
  {
    match ToNumber(OrElse(score, Num(DefaultScore)))
    case NaN => Finite(DefaultScore)
    case Finite(n) => Finite(if n < 0 then 0 else if n > 100 then 100 else n)
  }

  /** The reply handling of `getMatchScore`, parametrised by the score rule.
      `null` parses but makes `parsed.score` throw, which lands in the same
      fallback as a parse failure. */
  function ScoreReplyWith(raw: string, parse: string -> Option<Value>, asWritten: bool): MatchScore {
    match parse(Cleanup(raw))
    case None => Fallback
    case Some(p) =>
      if p.Null? then Fallback
      else
        var s := Member(Some(p), "score");
        MatchScore(if asWritten then ClampAsWritten(s) else Clamp(s),
                   OrElse(Member(Some(p), "reason"), Str(DefaultReason)))
  }

  /** The reply handling exactly as written. */
  function ScoreReplyAsWritten(raw: string, parse: string -> Option<Value>): MatchScore {
    ScoreReplyWith(raw, parse, true)
  }

  /** The reply handling with the corrected score rule. */
  function ScoreReply(raw: string, parse: string -> Option<Value>): (r: MatchScore)
    ensures r.score.Finite? && 0 <= r.score.n <= 100
    ensures Truthy(Some(r.reason))
  {
    ScoreReplyWith(raw, parse, false)
  }

  /** `getMatchScore` with the corrected score rule; the prompt carries the
      first 1500 characters of each text. */
  function GetMatchScore(resumeText: string, jobDescription: string,
                         model: Prompt -> string, parse: string -> Option<Value>): (r: MatchScore)
    ensures r.score.Finite? && 0 <= r.score.n <= 100
  {
    ScoreReply(model(MatchPrompt(Take(resumeText, ExcerptLength), Take(jobDescription, ExcerptLength))), parse)
  }

  /** Only the first 1500 characters of each text reach the model. */
  lemma MatchScoreSeesExcerpts(r1: string, j1: string, r2: string, j2: string,
                               model: Prompt -> string, parse: string -> Option<Value>)
    requires Take(r1, ExcerptLength) == Take(r2, ExcerptLength)
    requires Take(j1, ExcerptLength) == Take(j2, ExcerptLength)
    ensures GetMatchScore(r1, j1, model, parse) == GetMatchScore(r2, j2, model, parse)
  {
  }

  /** A numeric-looking string with a unit does not coerce to a number. */
  lemma PercentIsNaN()
    ensures ToNumber(Str("85%")) == NaN
  {
    assert Trim("85%") == "85%" by {
      TrimKeepsTrimmed("85%");
    }
    assert !IsDigits("85%") by {
      assert !IsDigit("85%"[2]);
    }
  }

  /** As written, a score that is present but not numeric, such as "85%",
      makes `Math.max` and `Math.min` yield NaN. */
  lemma AsWrittenScoreCanBeNaN(raw: string, parse: string -> Option<Value>)
    requires parse(Cleanup(raw)) == Some(Obj(map["score" := Str("85%")]))
    ensures ScoreReplyAsWritten(raw, parse).score == NaN
  {
    var p := Obj(map["score" := Str("85%")]);
    assert Member(Some(p), "score") == Some(Str("85%"));
    PercentIsNaN();
    assert ClampAsWritten(Some(Str("85%"))) == NaN;
  }

  /** The corrected rule agrees with the code whenever the code yields a number. */
  lemma ClampAgrees(score: Option<Value>)
    requires ClampAsWritten(score) != NaN
    ensures Clamp(score) == ClampAsWritten(score)
  {
  }

  /** The score rules: a missing or zero score becomes 75, a negative one 0,
      one above 100 becomes 100, any other is kept. */
  lemma ClampRules(score: Option<Value>)
    ensures score == None || score == Some(Num(0)) ==> Clamp(score) == Finite(75)
    ensures forall n :: score == Some(Num(n)) && n < 0 ==> Clamp(score) == Finite(0)
    ensures forall n :: score == Some(Num(n)) && n > 100 ==> Clamp(score) == Finite(100)
    ensures forall n :: score == Some(Num(n)) && 0 < n <= 100 ==> Clamp(score) == Finite(n)
  {
  }

  /** On a parsed object the score follows the rules above and a missing
      reason becomes the default sentence. */
  lemma ScoreDefaults(raw: string, parse: string -> Option<Value>, fields: Record)
    requires parse(Cleanup(raw)) == Some(Obj(fields))
    ensures ScoreReply(raw, parse).score == Clamp(Field(fields, "score"))
    ensures !Truthy(Field(fields, "reason")) ==> ScoreReply(raw, parse).reason == Str(DefaultReason)
    ensures Truthy(Field(fields, "reason")) ==> ScoreReply(raw, parse).reason == fields["reason"]
  {
    assert Member(Some(Obj(fields)), "score") == Field(fields, "score");
    assert Member(Some(Obj(fields)), "reason") == Field(fields, "reason");
  }

  /** A reply that does not parse, or parses to `null`, gives the fixed fallback. */
  lemma ScoreFallback(raw: string, parse: string -> Option<Value>)
    requires parse(Cleanup(raw)) == None || parse(Cleanup(raw)) == Some(Null)
    ensures ScoreReply(raw, parse) == Fallback
    ensures ScoreReplyAsWritten(raw, parse) == Fallback
  {
  }

  /** The reply of the chat assistant. */
  datatype ChatResponse = ChatResponse(jobs: seq<Record>, explanation: Value)

  const ContextLength: nat := 8
  const LoadingContext: string := "Currently loading job listings..."
  const HelpSentence: string :=
    "I'd be happy to help with your job search. Could you provide more details about what you're looking for?"

  const NoSalary: string := "Salary not disclosed"

  /** `- ${j.title} at ${j.company} (${j.location}`: the part of a context
      line before the salary. */
  function LineHead(j: Record): string {
    "- " + ToText(Field(j, "title")) + " at " + ToText(Field(j, "company")) + " (" + ToText(Field(j, "location"))
  }

  /** One line of the chat context: the head, then ") - " and the salary, or
      "Salary not disclosed" when the salary is falsy. */
  function JobLine(j: Record): (r: string)
    ensures IsPrefix(LineHead(j) + ") - ", r)
    ensures !Truthy(Field(j, "salary")) ==> IsSuffix(") - " + NoSalary, r)
    ensures Truthy(Field(j, "salary")) ==> "salary" in j && IsSuffix(") - " + Text(j["salary"]), r)
    ensures |r| == |LineHead(j)| + 4 +
      (if Truthy(Field(j, "salary")) then |Text(j["salary"])| else |NoSalary|)
  {
    if Truthy(Field(j, "salary")) then
      var salary := Text(j["salary"]);
      ConcatEnds(LineHead(j), ") - ", salary);
      LineHead(j) + (") - " + salary)
    else
      ConcatEnds(LineHead(j), ") - ", NoSalary);
      LineHead(j) + (") - " + NoSalary)
  }

  /** The head, the separator, the salary text and the length fix a context
      line completely: nothing can stand between the head and the salary. */
  lemma JobLineDetermined(j: Record, s: string)
    requires IsPrefix(LineHead(j) + ") - ", s)
    requires Truthy(Field(j, "salary")) ==> "salary" in j && IsSuffix(Text(j["salary"]), s)
    requires !Truthy(Field(j, "salary")) ==> IsSuffix(NoSalary, s)
    requires |s| == |LineHead(j)| + 4 +
      (if Truthy(Field(j, "salary")) then |Text(j["salary"])| else |NoSalary|)
    ensures s == JobLine(j)
  {
    var head, r := LineHead(j) + ") - ", JobLine(j);
    var tail := if Truthy(Field(j, "salary")) then Text(j["salary"]) else NoSalary;
    SuffixOfSuffix(") - ", tail, r);
    PrefixSuffixDetermine(head, tail, r);
    PrefixSuffixDetermine(head, tail, s);
  }

  /** The lines of the first eight jobs, joined by newlines. */
  function JobContext(jobs: seq<Record>): string {
    var n := if |jobs| < ContextLength then |jobs| else ContextLength;
    Join(seq(n, i requires 0 <= i < n => JobLine(jobs[i])), "\n")
  }

  /** The context is empty exactly when there are no jobs, holds the line of
      each of the first eight jobs, and ignores every job after the eighth. */
  lemma JobContextShape(jobs: seq<Record>, more: seq<Record>)
    ensures JobContext(jobs) == [] <==> jobs == []
    ensures forall i :: 0 <= i < |jobs| && i < ContextLength ==> Contains(JobContext(jobs), JobLine(jobs[i]))
    ensures |jobs| >= ContextLength ==> JobContext(jobs + more) == JobContext(jobs)
  {
    var n := if |jobs| < ContextLength then |jobs| else ContextLength;
    var lines := seq(n, i requires 0 <= i < n => JobLine(jobs[i]));
    if jobs != [] {
      JoinStartsWithFirst(lines, "\n");
    }
    forall i | 0 <= i < |jobs| && i < ContextLength
      ensures Contains(JobContext(jobs), JobLine(jobs[i]))
    {
      JoinContainsPart(lines, "\n", i);
    }
    if |jobs| >= ContextLength {
      var lines2 := seq(n, i requires 0 <= i < n => JobLine((jobs + more)[i]));
      assert lines2 == lines;
    }
  }

  /** `.replace(/^[^a-zA-Z]+/, '')` */
  function DropLeadingNonLetters(s: string): (r: string)
    ensures IsSuffix(r, s)
    ensures r == [] || IsLetter(r[0])
    ensures forall i :: 0 <= i < |s| - |r| ==> !IsLetter(s[i])
    ensures r == [] <==> forall i :: 0 <= i < |s| ==> !IsLetter(s[i])
  {
    if s != [] && !IsLetter(s[0]) then DropLeadingNonLetters(s[1..]) else s
  }

  /** The text used when the reply does not parse. */
  function ChatFallbackText(raw: string): (r: string)
    ensures r != []
  {
    var clean := Trim(RemoveAll(DropLeadingNonLetters(raw), Fence));
    if clean == [] then HelpSentence else clean
  }

  /** `chatAssistant`: the jobs list of the response is always empty; a
      reply that parses to something other than `null` gives its
      `explanation` when truthy and otherwise the raw reply, and a reply that
      does not parse, or parses to `null`, gives the fallback text. */
  function ChatAssistant(jobs: seq<Record>, query: string,
                         model: Prompt -> string, parse: string -> Option<Value>): (r: ChatResponse)
    ensures r.jobs == []
    ensures var context := JobContext(jobs);
      var raw := model(ChatPrompt(if context == [] then LoadingContext else context, query));
      var parsed := parse(Cleanup(raw));
      && (parsed.None? || parsed == Some(Null) ==> r.explanation == Str(ChatFallbackText(raw)))
      && (parsed.Some? && !parsed.value.Null? && Truthy(Member(parsed, "explanation"))
          ==> r.explanation == Member(parsed, "explanation").value)
      && (parsed.Some? && !parsed.value.Null? && !Truthy(Member(parsed, "explanation"))
          ==> r.explanation == Str(raw))
  {
    var context := JobContext(jobs);
    var raw := model(ChatPrompt(if context == [] then LoadingContext else context, query));
    match parse(Cleanup(raw))
    case Some(p) =>
      if p.Null? then ChatResponse([], Str(ChatFallbackText(raw)))
      else ChatResponse([], OrElse(Member(Some(p), "explanation"), Str(raw)))
    case None => ChatResponse([], Str(ChatFallbackText(raw)))
  }

  /** The fallback text is the help sentence when the reply holds no ASCII
      letter. */
  lemma ChatFallbackNoLetters(raw: string)
    requires forall i :: 0 <= i < |raw| ==> !IsLetter(raw[i])
    ensures ChatFallbackText(raw) == HelpSentence
  {
    assert RemoveAll(DropLeadingNonLetters(raw), Fence) == [];
  }

  /** Cleaning a text that starts with a letter keeps that letter in front
      and leaves no code fence. */
  lemma CleanKeepsLetter(d: string)
    requires d != [] && IsLetter(d[0])
    ensures var t := Trim(RemoveAll(d, Fence)); t != [] && t[0] == d[0] && Free(t, Fence)
  {
    assert !IsPrefix(Fence, d) by {
      assert Fence[0] == '`';
    }
    var u := RemoveAll(d, Fence);
    RemoveAllKeepsHead(d, Fence);
    TrimKeepsHead(u);
    RemoveFenceFree(d);
    FreeWithin(u, Trim(u), Fence);
  }

  /** When the reply holds an ASCII letter the fallback text is the cleaned
      reply, which starts with the reply's first letter and holds no code
      fence. */
  lemma ChatFallbackShape(raw: string)
    requires exists i :: 0 <= i < |raw| && IsLetter(raw[i])
    ensures var t := ChatFallbackText(raw);
      && t == Trim(RemoveAll(DropLeadingNonLetters(raw), Fence))
      && t != [] && IsLetter(t[0]) && Free(t, Fence)
  {
    CleanKeepsLetter(DropLeadingNonLetters(raw));
  }
}
