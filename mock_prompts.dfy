/**
 * The mock AI responses of backend/utils/prompts.js: a rule-based answer
 * scorer and the fixed question and career-advice templates. Scores are
 * counted in half-points, so every step of the scorer is an integer.
 */
module MockPrompts {
  import opened Wrappers
  import opened Text

  // ---------------------------------------------------------------------------
  // Answer evaluation
  // ---------------------------------------------------------------------------

  lemma {:induction false} CountAppend(a: string, b: string, c: char)
    ensures Count(a + b, c) == Count(a, c) + Count(b, c)
  {
    if a == [] {
      assert a + b == b;
    } else {
      assert (a + b)[1..] == a[1..] + b;
      CountAppend(a[1..], b, c);
    }
  }

  lemma {:induction false} CountAbsent(s: string, c: char)
    requires c !in s
    ensures Count(s, c) == 0
  {
    if s != [] {
      CountAbsent(s[1..], c);
    }
  }

  /** Splitting on a character yields one more piece than it has occurrences. */
  lemma {:induction false} SplitLength(s: string, sep: char)
    ensures |Split(s, sep)| == Count(s, sep) + 1
    decreases |s|
  {
    if sep !in s {
      CountAbsent(s, sep);
    } else {
      var k := IndexOf(s, sep);
      SplitLength(s[k + 1..], sep);
      assert s == s[..k] + ([sep] + s[k + 1..]);
      CountAppend(s[..k], [sep] + s[k + 1..], sep);
      CountAppend([sep], s[k + 1..], sep);
      CountAbsent(s[..k], sep);
    }
  }

  /** `answer.trim().split(' ').length`: one more than the number of single
    * spaces left after trimming, so a blank answer counts as one word. */
  function WordCount(answer: string): (n: nat)
    ensures n == Count(JsTrim(answer), ' ') + 1
    ensures JsTrim(answer) == "" ==> n == 1
  {
    SplitLength(JsTrim(answer), ' ');
    |Split(JsTrim(answer), ' ')|
  }

  predicate HasExamples(answer: string) {
    Contains(ToLower(answer), "example") || Contains(ToLower(answer), "project")
  }

  /** `/\d+/.test(answer)`. */
  predicate HasNumbers(answer: string) {
    exists i :: 0 <= i < |answer| && IsAsciiDigit(answer[i])
  }

  /** The five rules, in half-points: base 6, +1 above 30 words, +1 more above
    * 60 words, +1 for an example or project, +0.5 for a digit, +0.5 when
    * `answer.length` (UTF-16 code units) is above 200. */
  function UnclampedHalves(answer: string): (h: int)
    ensures 12 <= h <= 20
  {
    var words := WordCount(answer);
    12 + (if words > 30 then 2 else 0) + (if words > 60 then 2 else 0)
       + (if HasExamples(answer) then 2 else 0) + (if HasNumbers(answer) then 1 else 0)
       + (if Utf16Length(answer) > 200 then 1 else 0)
  }

  /** `Math.min(10, Math.max(4, score))` in half-points. */
  function Clamp(halves: int): int {
    if halves > 20 then 20 else if halves < 8 then 8 else halves
  }

  /** The bonuses never reach past 10 and never fall below 6, so the clamp to
    * [4, 10] never changes the score. */
  lemma ClampNeverBinds(answer: string)
    ensures 12 <= UnclampedHalves(answer) <= 20
    ensures Clamp(UnclampedHalves(answer)) == UnclampedHalves(answer)
  {
  }

  /** The score is the base 6 exactly when no rule fires. */
  lemma BaseScoreIff(answer: string)
    ensures Clamp(UnclampedHalves(answer)) == 12
        <==> WordCount(answer) <= 30 && !HasExamples(answer) && !HasNumbers(answer) && Utf16Length(answer) <= 200
  {
  }

  /** The score is the top 10 exactly when every rule fires. */
  lemma TopScoreIff(answer: string)
    ensures Clamp(UnclampedHalves(answer)) == 20
        <==> WordCount(answer) > 60 && HasExamples(answer) && HasNumbers(answer) && Utf16Length(answer) > 200
  {
  }

  /** `Math.round(x * 10) / 10`: `Math.round` rounds halves up. */
  function RoundToTenth(x: real): real {
    ((x * 10.0 + 0.5).Floor as real) / 10.0
  }

  /** Rounding to one decimal leaves a half-point score unchanged. */
  lemma HalfPointsSurviveRounding(halves: int)
    ensures RoundToTenth(halves as real / 2.0) == halves as real / 2.0
  {
    var x := halves as real / 2.0;
    assert x * 2.0 == halves as real;
    assert x * 10.0 == (5 * halves) as real;
    assert (x * 10.0 + 0.5).Floor == 5 * halves;
    assert ((5 * halves) as real) / 10.0 == x;
  }

  /** `Math.floor(Math.random() * n)`: an index of an `n`-element array. */
  function PickIndex(random: real, n: nat): (k: int)
    requires 0.0 <= random < 1.0 && n > 0
    ensures 0 <= k < n
  {
    assert 0.0 <= random * (n as real) < n as real;
    (random * (n as real)).Floor
  }

  const FeedbackOptions: seq<string> := [
    "Great answer! You provided specific details and examples that demonstrate your experience.",
    "Good response. Consider adding more specific examples to strengthen your answer.",
    "Solid answer. Try to include quantifiable results or metrics to make it more impactful.",
    "Nice explanation. Adding a brief example would help illustrate your point better.",
    "Well articulated. Consider structuring your response using the STAR method for even better impact."
  ]

  const Strengths: seq<string> := [
    "Clear communication",
    "Relevant experience mentioned",
    "Good understanding of concepts"
  ]

  const Improvements: seq<string> := [
    "Add more specific examples",
    "Include quantifiable achievements",
    "Structure response using STAR method"
  ]

  const FollowUpQuestions: seq<string> := [
    "Can you provide more details about the technical implementation?",
    "What challenges did you face and how did you overcome them?",
    "How did you measure the success of this project?"
  ]

  datatype Evaluation = Evaluation(
    score: real,
    feedback: string,
    strengths: seq<string>,
    improvements: seq<string>,
    followUpQuestions: seq<string>)

  /** The score before the clamp, in half-points, added up rule by rule as
    * `evaluateInterviewAnswer` does. */
  method ScoreHalves(answer: string) returns (score: int)
    ensures score == UnclampedHalves(answer)
    ensures 12 <= score <= 20
  {
    var answerLength := WordCount(answer);
    var hasExamples := HasExamples(answer);
    var hasNumbers := HasNumbers(answer);

    score := 12;
    if answerLength > 30 { score := score + 2; }
    if answerLength > 60 { score := score + 2; }
    if hasExamples { score := score + 2; }
    if hasNumbers { score := score + 1; }
    if Utf16Length(answer) > 200 { score := score + 1; }
  }

  /** `evaluateInterviewAnswer`; `random` is the value `Math.random()` returned. */
  method EvaluateInterviewAnswer(question: string, answer: string, random: real) returns (e: Evaluation)
    requires 0.0 <= random < 1.0
    ensures e.score == Clamp(UnclampedHalves(answer)) as real / 2.0
    ensures 6.0 <= e.score <= 10.0
    ensures e.feedback in FeedbackOptions
    ensures e.feedback == FeedbackOptions[PickIndex(random, |FeedbackOptions|)]
    ensures |e.strengths| == 3 && |e.improvements| == 3 && |e.followUpQuestions| == 3
    ensures e.strengths == Strengths && e.improvements == Improvements && e.followUpQuestions == FollowUpQuestions
  {
    var score := ScoreHalves(answer);
    score := if score > 20 then 20 else if score < 8 then 8 else score;
    assert score == Clamp(UnclampedHalves(answer)) && 12 <= score <= 20;
    HalfPointsSurviveRounding(score);
    var points := RoundToTenth(score as real / 2.0);
    assert points == score as real / 2.0 && 6.0 <= points <= 10.0;

    var pick := PickIndex(random, |FeedbackOptions|);
    var feedback := FeedbackOptions[pick];
    e := Evaluation(points, feedback, Strengths, Improvements, FollowUpQuestions);
  }

  // ---------------------------------------------------------------------------
  // Interview questions
  // ---------------------------------------------------------------------------

  /** `resumeInfo.skills?.slice(0, 2).join(' and ') || 'modern technologies'`;
    * `None` is a missing `skills` property. */
  function SkillPhrase(skills: Option<seq<string>>): (p: string)
    ensures skills.None? || skills.value == [] ==> p == "modern technologies"
    ensures skills.Some? && |skills.value| == 1 ==> p == (if skills.value[0] == "" then "modern technologies" else skills.value[0])
    ensures skills.Some? && |skills.value| >= 2 ==> p == skills.value[0] + " and " + skills.value[1]
  {
    var joined := if skills.Some? then Join(SlicePrefix(skills.value, 2), " and ") else "";
    if skills.Some? && |skills.value| >= 2 then
      var two := SlicePrefix(skills.value, 2);
      assert two[0] == skills.value[0] && two[1..] == [skills.value[1]];
      assert Join(two[1..], " and ") == skills.value[1];
      assert joined == skills.value[0] + " and " + skills.value[1];
      assert |joined| >= 5;
      joined
    else if joined == "" then "modern technologies" else joined
  }

  /** `resumeInfo.skills?.[0] || 'technology'`. */
  function LeadSkill(skills: Option<seq<string>>): (p: string)
    ensures skills.None? || skills.value == [] || skills.value[0] == "" ==> p == "technology"
    ensures skills.Some? && skills.value != [] && skills.value[0] != "" ==> p == skills.value[0]
  {
    if skills.Some? && skills.value != [] && skills.value[0] != "" then skills.value[0] else "technology"
  }

  const AboutYourself := "Tell me about yourself and your professional background."
  const SkillsLead := "I see you have experience with "
  const SkillsTail := ". Can you walk me through a challenging project where you used these skills?"
  const TrendsLead := "How do you stay updated with the latest trends in "
  const ProblemSolving := "Describe a time when you had to solve a complex technical problem. What was your approach?"
  const FiveYears := "Where do you see yourself in the next 5 years, and how does this role align with your career goals?"

  /** `generateInterviewQuestions`: always five questions; the second names the
    * first two skills and the third the first skill. */
  function GenerateInterviewQuestions(skills: Option<seq<string>>): (qs: seq<string>)
    ensures |qs| == 5
    ensures qs[0] == AboutYourself && qs[3] == ProblemSolving && qs[4] == FiveYears
    ensures qs[1] == SkillsLead + SkillPhrase(skills) + SkillsTail
    ensures qs[2] == TrendsLead + LeadSkill(skills) + "?"
  {
    [AboutYourself, SkillsLead + SkillPhrase(skills) + SkillsTail, TrendsLead + LeadSkill(skills) + "?", ProblemSolving, FiveYears]
  }

  // ---------------------------------------------------------------------------
  // Career advice
  // ---------------------------------------------------------------------------

  datatype SkillGap = SkillGap(skill: string, priority: string, timeToLearn: string)

  const AllSkillGaps: seq<SkillGap> := [
    SkillGap("Cloud Platforms (AWS/Azure)", "High", "3-6 months"),
    SkillGap("System Design", "High", "4-8 months"),
    SkillGap("DevOps/CI-CD", "Medium", "2-4 months"),
    SkillGap("Leadership Skills", "Medium", "6-12 months"),
    SkillGap("Data Structures & Algorithms", "High", "3-6 months"),
    SkillGap("Microservices Architecture", "Medium", "2-3 months")
  ]

  datatype CareerAdvice = CareerAdvice(
    roleFit: int,
    fitAnalysis: string,
    skillGaps: seq<SkillGap>,
    recommendations: seq<string>)

  /** Decimal digits of `n`, as template literals print integers. */
  function DecimalString(n: nat): (s: string)
    ensures |s| >= 1 && All(s, IsAsciiDigit)
    ensures DigitsValue(s) == n
    ensures |s| > 1 ==> s[0] != '0'
  {
    var d := ['0' + ((n % 10) as char)];
    if n < 10 then
      assert d[..0] == [];
      d
    else
      var high := DecimalString(n / 10);
      assert (high + d)[..|high|] == high;
      high + d
  }

  /** `Math.floor(Math.random() * 20) + 75`. */
  function RoleFit(random: real): (fit: int)
    requires 0.0 <= random < 1.0
    ensures 75 <= fit <= 94
  {
    assert 0.0 <= random * 20.0 < 20.0;
    (random * 20.0).Floor + 75
  }

  const FitTail := " Your technical foundation is solid, and with focused skill development in key areas, you'll be well-positioned for this career transition. Your "

  const FitClosing := " experience level aligns well with the requirements."

  /** The fit analysis after its opening sentence `head`: that sentence, the
    * fixed middle, the experience level, and the closing words. */
  function FitAnalysis(head: string, currentExperience: string): (r: string)
    ensures StartsWith(r, head)
    ensures r == head + FitTail + currentExperience + FitClosing
  {
    var tail := FitTail + currentExperience + FitClosing;
    assert (head + tail)[..|head|] == head;
    head + tail
  }

  /** The five recommendations that are fixed text. */
  const FixedRecommendations: seq<string> := [
    "Build a portfolio showcasing full-stack projects with modern technologies",
    "Contribute to open source projects to demonstrate collaboration skills",
    "Practice system design interviews for senior-level positions",
    "Network with professionals in your target industry through LinkedIn and tech meetups",
    "Consider obtaining relevant certifications to validate your skills"
  ]

  /** The recommendation naming the first skill gap. */
  function FocusRecommendation(targetRole: string): string {
    "Focus on " + ToLower(AllSkillGaps[0].skill) + " - this is highly valued for " + targetRole + " positions"
  }

  /** The recommendations; only the first one is a template. */
  function Recommendations(targetRole: string): (r: seq<string>)
    ensures |r| == 6
    ensures StartsWith(r[0], "Focus on " + ToLower(AllSkillGaps[0].skill))
    ensures r[0] == FocusRecommendation(targetRole)
    ensures r[1..] == FixedRecommendations
  {
    var focus := FocusRecommendation(targetRole);
    assert focus[..|"Focus on " + ToLower(AllSkillGaps[0].skill)|] == "Focus on " + ToLower(AllSkillGaps[0].skill);
    [focus] + FixedRecommendations
  }

  /** The opening sentence of the fit analysis. */
  function FitHead(roleFit: int, targetRole: string): string
    requires roleFit >= 0
  {
    "You have a " + DecimalString(roleFit) + "% match for " + targetRole + " roles."
  }

  /** `generateCareerAdvice`; `random` is the value `Math.random()` returned. */
  function GenerateCareerAdvice(targetRole: string, currentExperience: string, random: real): (a: CareerAdvice)
    requires 0.0 <= random < 1.0
    ensures 75 <= a.roleFit <= 94
    ensures a.skillGaps == AllSkillGaps[..4] && |a.skillGaps| == 4
    ensures StartsWith(a.fitAnalysis, FitHead(a.roleFit, targetRole))
    ensures |a.recommendations| == 6
    ensures StartsWith(a.recommendations[0], "Focus on " + ToLower(a.skillGaps[0].skill))
    ensures a.roleFit == RoleFit(random)
    ensures a.fitAnalysis == FitAnalysis(FitHead(a.roleFit, targetRole), currentExperience)
    ensures a.recommendations == Recommendations(targetRole)
  {
    var roleFit := RoleFit(random);
    CareerAdvice(roleFit, FitAnalysis(FitHead(roleFit, targetRole), currentExperience), AllSkillGaps[..4], Recommendations(targetRole))
  }
}
