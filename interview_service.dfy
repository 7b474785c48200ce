/**
 * The post-processing that backend-python/interview.py applies to the text a
 * language model returns: sentence truncation of feedback, location of the
 * JSON object inside a reply, the evaluation fallback, the line filters of the
 * question generators and the rule that decides when the candidate's
 * introduction goes into the prompt. The model's reply and `json.loads` are
 * parameters.
 */
module InterviewService {
  import opened Wrappers
  import opened Text

  // ---------------------------------------------------------------------------
  // truncate_feedback: re.split(r'(?<=[.!?]) +', feedback)
  // ---------------------------------------------------------------------------

  predicate Terminal(c: char) {
    c == '.' || c == '!' || c == '?'
  }

  /** A match of the split pattern may start at `i`: a space whose preceding
    * character ends a sentence. */
  predicate BreakAt(s: string, i: nat) {
    0 < i < |s| && s[i] == ' ' && Terminal(s[i - 1])
  }

  /** End of the run of spaces starting at `i` (the greedy ` +`). */
  function SpaceRunEnd(s: string, i: nat): (j: nat)
    requires i <= |s|
    ensures i <= j <= |s|
    ensures forall k :: i <= k < j ==> s[k] == ' '
    ensures j == |s| || s[j] != ' '
    decreases |s| - i
  {
    if i < |s| && s[i] == ' ' then SpaceRunEnd(s, i + 1) else i
  }

  /** The split, scanning left to right: `s[start..i]` is the piece being
    * built. Every piece but the last ends a sentence, and no piece holds a
    * place where the pattern could match. */
  function SentencesFrom(s: string, start: nat, i: nat): (parts: seq<string>)
    requires start <= i <= |s|
    requires start == 0 || start == |s| || s[start] != ' '
    requires forall m :: start < m < i ==> !BreakAt(s, m)
    ensures |parts| >= 1
    ensures forall k :: 0 <= k < |parts| - 1 ==> parts[k] != [] && Terminal(parts[k][|parts[k]| - 1])
    ensures forall k, m :: 0 <= k < |parts| && 0 <= m < |parts[k]| ==> !BreakAt(parts[k], m)
    decreases |s| - i
  {
    if i == |s| then
      assert forall m :: 0 <= m < |s[start..]| && BreakAt(s[start..], m) ==> BreakAt(s, start + m);
      [s[start..]]
    else if BreakAt(s, i) then
      var j := SpaceRunEnd(s, i);
      var piece := s[start..i];
      assert forall m :: 0 <= m < |piece| && BreakAt(piece, m) ==> BreakAt(s, start + m);
      var rest := SentencesFrom(s, j, j);
      assert ([piece] + rest)[1..] == rest;
      [piece] + rest
    else
      SentencesFrom(s, start, i + 1)
  }

  function Sentences(s: string): seq<string> {
    SentencesFrom(s, 0, 0)
  }

  /** Position `i` is a space inside a run that follows the end of a sentence. */
  predicate InBreakRun(s: string, i: nat)
    decreases i
  {
    0 < i < |s| && s[i] == ' ' && (Terminal(s[i - 1]) || InBreakRun(s, i - 1))
  }

  /** Every space of such a run after its first one. */
  predicate Dropped(s: string, i: nat) {
    1 < i < |s| && s[i] == ' ' && InBreakRun(s, i - 1)
  }

  /** `s` from `i` on with the dropped spaces removed. */
  function CollapseFrom(s: string, i: nat): string
    requires i <= |s|
    decreases |s| - i
  {
    if i == |s| then [] else (if Dropped(s, i) then [] else [s[i]]) + CollapseFrom(s, i + 1)
  }

  /** `s` with every run of spaces that follows '.', '!' or '?' shortened to
    * one space: a reference definition of what splitting and rejoining with
    * single spaces does. */
  function Collapse(s: string): string {
    CollapseFrom(s, 0)
  }

  lemma {:induction false} BreakRunSpaces(s: string, i: nat, m: nat)
    requires BreakAt(s, i) && i <= m < |s|
    requires forall t :: i <= t <= m ==> s[t] == ' '
    ensures InBreakRun(s, m)
    decreases m - i
  {
    if m > i {
      BreakRunSpaces(s, i, m - 1);
    }
  }

  lemma {:induction false} RunCollapses(s: string, i: nat, j: nat, k: nat)
    requires BreakAt(s, i) && i < k <= j <= |s|
    requires forall t :: i <= t < j ==> s[t] == ' '
    ensures CollapseFrom(s, k) == CollapseFrom(s, j)
    decreases j - k
  {
    if k < j {
      BreakRunSpaces(s, i, k - 1);
      assert Dropped(s, k);
      RunCollapses(s, i, j, k + 1);
    }
  }

  /** At a break the whole run collapses to its first space. */
  lemma CollapseAtBreak(s: string, i: nat)
    requires BreakAt(s, i)
    ensures CollapseFrom(s, i) == " " + CollapseFrom(s, SpaceRunEnd(s, i))
  {
    var j := SpaceRunEnd(s, i);
    assert !Dropped(s, i);
    RunCollapses(s, i, j, i + 1);
  }

  /** Away from a break run a character is kept. */
  lemma CollapseOutsideRun(s: string, start: nat, i: nat)
    requires start <= i < |s| && !BreakAt(s, i)
    requires start == 0 || s[start] != ' '
    requires forall m :: start <= m < i ==> !InBreakRun(s, m)
    ensures !InBreakRun(s, i)
    ensures CollapseFrom(s, i) == [s[i]] + CollapseFrom(s, i + 1)
  {
    if i > start {
      assert !InBreakRun(s, i - 1);
    }
    assert !Dropped(s, i);
  }

  /** The piece that ends at a break, then the rest of the text. */
  lemma JoinAtBreak(s: string, start: nat, i: nat)
    requires start <= i < |s| && BreakAt(s, i)
    requires start == 0 || s[start] != ' '
    requires forall m :: start < m < i ==> !BreakAt(s, m)
    requires var j := SpaceRunEnd(s, i); Join(SentencesFrom(s, j, j), " ") == CollapseFrom(s, j)
    ensures Join(SentencesFrom(s, start, i), " ") == s[start..i] + CollapseFrom(s, i)
  {
    var j := SpaceRunEnd(s, i);
    var rest := SentencesFrom(s, j, j);
    var parts := [s[start..i]] + rest;
    assert SentencesFrom(s, start, i) == parts;
    assert parts[1..] == rest;
    assert Join(parts, " ") == s[start..i] + " " + Join(rest, " ");
    CollapseAtBreak(s, i);
  }

  /** A character outside any break run joins the piece being built. */
  lemma JoinOutsideRun(s: string, start: nat, i: nat)
    requires start <= i < |s| && !BreakAt(s, i)
    requires start == 0 || s[start] != ' '
    requires forall m :: start < m < i ==> !BreakAt(s, m)
    requires forall m :: start <= m < i ==> !InBreakRun(s, m)
    requires Join(SentencesFrom(s, start, i + 1), " ") == s[start..i + 1] + CollapseFrom(s, i + 1)
    ensures Join(SentencesFrom(s, start, i), " ") == s[start..i] + CollapseFrom(s, i)
  {
    CollapseOutsideRun(s, start, i);
    assert s[start..i] + [s[i]] == s[start..i + 1];
  }

  lemma {:induction false} SentencesFromJoin(s: string, start: nat, i: nat)
    requires start <= i <= |s|
    requires start == 0 || start == |s| || s[start] != ' '
    requires forall m :: start < m < i ==> !BreakAt(s, m)
    requires forall m :: start <= m < i ==> !InBreakRun(s, m)
    ensures Join(SentencesFrom(s, start, i), " ") == s[start..i] + CollapseFrom(s, i)
    decreases |s| - i
  {
    if i == |s| {
      assert s[start..i] + [] == s[start..];
    } else if BreakAt(s, i) {
      var j := SpaceRunEnd(s, i);
      SentencesFromJoin(s, j, j);
      assert s[j..j] + CollapseFrom(s, j) == CollapseFrom(s, j);
      JoinAtBreak(s, start, i);
    } else {
      CollapseOutsideRun(s, start, i);
      SentencesFromJoin(s, start, i + 1);
      JoinOutsideRun(s, start, i);
    }
  }

  /** Splitting at the sentence breaks and joining the pieces with single
    * spaces collapses the break runs and changes nothing else. */
  lemma SentencesJoin(s: string)
    ensures Join(Sentences(s), " ") == Collapse(s)
  {
    SentencesFromJoin(s, 0, 0);
  }

  /** `truncate_feedback(feedback, max_sentences)`. */
  function TruncateFeedback(feedback: string, maxSentences: int): string {
    PyStrip(Join(SlicePrefix(Sentences(feedback), maxSentences), " "))
  }

  /** The default limit of `truncate_feedback`. */
  const MaxSentences := 3

  /** Text with at most `maxSentences` pieces comes back whole, with its break
    * runs collapsed and its ends stripped. */
  lemma ShortFeedbackKept(feedback: string, maxSentences: int)
    requires |Sentences(feedback)| <= maxSentences
    ensures TruncateFeedback(feedback, maxSentences) == PyStrip(Collapse(feedback))
  {
    SentencesJoin(feedback);
  }

  lemma {:induction false} JoinPrefix(parts: seq<string>, m: nat, sep: string)
    requires m <= |parts|
    ensures StartsWith(Join(parts, sep), Join(parts[..m], sep))
  {
    if m == 0 {
    } else if |parts| == 1 {
      assert parts[..m] == parts;
    } else if m == 1 {
      assert Join(parts, sep) == parts[0] + (sep + Join(parts[1..], sep));
    } else {
      JoinPrefix(parts[1..], m - 1, sep);
      assert parts[..m][1..] == parts[1..][..m - 1];
      var tail := Join(parts[1..], sep);
      var head := Join(parts[1..][..m - 1], sep);
      assert tail[..|head|] == head;
      assert (parts[0] + sep + tail)[..|parts[0] + sep + head|] == parts[0] + sep + head;
    }
  }

  /** Truncation only cuts: before the final strip, what it keeps is a prefix
    * of the collapsed text. */
  lemma TruncationIsPrefix(feedback: string, maxSentences: int)
    ensures StartsWith(Collapse(feedback), Join(SlicePrefix(Sentences(feedback), maxSentences), " "))
  {
    var parts := Sentences(feedback);
    SentencesJoin(feedback);
    JoinPrefix(parts, |SlicePrefix(parts, maxSentences)|, " ");
  }

  /** The number of places at or after `i` where the split pattern may match. */
  function BreakCount(s: string, i: nat): nat
    decreases |s| - i
  {
    if i >= |s| then 0 else (if BreakAt(s, i) then 1 else 0) + BreakCount(s, i + 1)
  }

  lemma {:induction false} BreakCountMono(s: string, a: nat, b: nat)
    requires a <= b
    ensures BreakCount(s, b) <= BreakCount(s, a)
    decreases b - a
  {
    if a < b {
      BreakCountMono(s, a + 1, b);
    }
  }

  lemma {:induction false} NoBreaksBetween(s: string, a: nat, b: nat)
    requires a <= b <= |s|
    requires forall m :: a <= m < b ==> !BreakAt(s, m)
    ensures BreakCount(s, a) == BreakCount(s, b)
    decreases b - a
  {
    if a < b {
      NoBreaksBetween(s, a + 1, b);
    }
  }

  /** The split yields one piece more than there are places where it matches. */
  lemma {:induction false} SentencesFromCount(s: string, start: nat, i: nat)
    requires start <= i <= |s|
    requires start == 0 || start == |s| || s[start] != ' '
    requires forall m :: start < m < i ==> !BreakAt(s, m)
    ensures |SentencesFrom(s, start, i)| == 1 + BreakCount(s, i)
    decreases |s| - i
  {
    if i == |s| {
    } else if BreakAt(s, i) {
      var j := SpaceRunEnd(s, i);
      SentencesFromCount(s, j, j);
      forall m | i < m < j
        ensures !BreakAt(s, m)
      {
        assert s[m - 1] == ' ';
      }
      NoBreaksBetween(s, i + 1, j);
    } else {
      SentencesFromCount(s, start, i + 1);
    }
  }

  lemma SentencesCount(s: string)
    ensures |Sentences(s)| == 1 + BreakCount(s, 0)
  {
    SentencesFromCount(s, 0, 0);
  }

  /** A piece of a text has no more places to split than the text from where
    * the piece starts. */
  lemma {:induction false} SliceBreaks(s: string, a: nat, b: nat, m: nat)
    requires a <= b <= |s| && m <= b - a
    ensures BreakCount(s[a..b], m) <= BreakCount(s, a + m)
    decreases b - a - m
  {
    if m < b - a {
      SliceBreaks(s, a, b, m + 1);
      assert BreakAt(s[a..b], m) ==> BreakAt(s, a + m);
    }
  }

  /** After a prefix that does not end a sentence, the places to split are
    * those of the suffix. */
  lemma {:induction false} ShiftBreaks(x: string, rest: string, m: nat)
    requires |x| >= 1 && !Terminal(x[|x| - 1]) && m <= |rest|
    ensures BreakCount(x + rest, |x| + m) == BreakCount(rest, m)
    decreases |rest| - m
  {
    if m < |rest| {
      ShiftBreaks(x, rest, m + 1);
      var j := x + rest;
      assert j[|x| + m] == rest[m];
      assert m > 0 ==> j[|x| + m - 1] == rest[m - 1];
      assert m == 0 ==> j[|x| - 1] == x[|x| - 1];
      assert BreakAt(j, |x| + m) == BreakAt(rest, m);
    }
  }

  predicate Unbroken(p: string) {
    forall m :: 0 <= m < |p| ==> !BreakAt(p, m)
  }

  /** Joining `n` pieces that hold no place to split with single spaces
    * creates at most `n - 1` such places. */
  lemma {:induction false} JoinBreaks(pieces: seq<string>)
    requires |pieces| >= 1
    requires forall k :: 0 <= k < |pieces| ==> Unbroken(pieces[k])
    ensures BreakCount(Join(pieces, " "), 0) <= |pieces| - 1
  {
    var p := pieces[0];
    if |pieces| == 1 {
      NoBreaksBetween(p, 0, |p|);
    } else {
      var rest := Join(pieces[1..], " ");
      JoinBreaks(pieces[1..]);
      var x := p + " ";
      var j := x + rest;
      assert Join(pieces, " ") == j;
      assert Unbroken(p);
      forall m | 0 <= m < |p|
        ensures !BreakAt(j, m)
      {
        if 0 < m {
          assert j[m] == p[m] && j[m - 1] == p[m - 1];
          assert !BreakAt(p, m);
        }
      }
      NoBreaksBetween(j, 0, |p|);
      ShiftBreaks(x, rest, 0);
    }
  }

  /** With a limit of at least one, truncated feedback splits into at most
    * that many sentences. */
  lemma TruncationKeepsAtMost(feedback: string, maxSentences: int)
    requires maxSentences >= 1
    ensures |Sentences(TruncateFeedback(feedback, maxSentences))| <= maxSentences
  {
    var parts := Sentences(feedback);
    var kept := SlicePrefix(parts, maxSentences);
    assert forall k :: 0 <= k < |kept| ==> kept[k] == parts[k];
    assert forall k :: 0 <= k < |kept| ==> Unbroken(kept[k]);
    JoinBreaks(kept);
    var joined := Join(kept, " ");
    var a, b := TrimSlice(joined, IsPySpace);
    SliceBreaks(joined, a, b, 0);
    BreakCountMono(joined, 0, a);
    SentencesCount(TruncateFeedback(feedback, maxSentences));
  }

  // ---------------------------------------------------------------------------
  // extract_json_from_text: where the JSON object is taken from
  // ---------------------------------------------------------------------------

  /** End of the run of Python white space starting at `i` (the greedy `\s*`). */
  function SkipWs(s: string, i: nat): (j: nat)
    requires i <= |s|
    ensures i <= j <= |s|
    ensures forall k :: i <= k < j ==> IsPySpace(s[k])
    ensures j == |s| || !IsPySpace(s[j])
    decreases |s| - i
  {
    if i < |s| && IsPySpace(s[i]) then SkipWs(s, i + 1) else i
  }

  const Fence := "```"
  const JsonFence := "```json"

  /** "```json", optional white space and '{' start at `p`. Because '{' is not
    * white space, `\s*` can only end at the end of the white-space run. */
  predicate Opens(s: string, p: nat) {
    p + |JsonFence| <= |s| && s[p..p + |JsonFence|] == JsonFence
    && SkipWs(s, p + |JsonFence|) < |s| && s[SkipWs(s, p + |JsonFence|)] == '{'
  }

  /** Where the captured object starts for an opening at `p`. */
  function OpenBrace(s: string, p: nat): nat
    requires Opens(s, p)
  {
    SkipWs(s, p + |JsonFence|)
  }

  /** '}' at `e`, then optional white space and "```". */
  predicate Closes(s: string, e: nat) {
    e < |s| && s[e] == '}' && StartsWith(s[SkipWs(s, e + 1)..], Fence)
  }

  /** The fenced pattern matches from `p` with the object ending at `e`. */
  predicate FenceMatch(s: string, p: nat, e: nat) {
    Opens(s, p) && OpenBrace(s, p) < e && Closes(s, e)
  }

  /** The lazy `[\s\S]*?`: the first closing position from `e` on. */
  function CloseFrom(s: string, e: nat): (r: Option<nat>)
    requires e <= |s|
    ensures r.Some? ==> e <= r.value && Closes(s, r.value)
    ensures forall k :: e <= k && (r.None? || k < r.value) ==> !Closes(s, k)
    decreases |s| - e
  {
    if e == |s| then None
    else if Closes(s, e) then Some(e)
    else CloseFrom(s, e + 1)
  }

  /** `re.search` tries the start positions from `p` on, leftmost first. */
  function FencedFrom(s: string, p: nat): (r: Option<(nat, nat)>)
    requires p <= |s|
    ensures r.Some? ==> p <= r.value.0 && FenceMatch(s, r.value.0, r.value.1)
    ensures r.Some? ==> forall q, e :: p <= q && FenceMatch(s, q, e) ==>
      r.value.0 < q || (r.value.0 == q && r.value.1 <= e)
    ensures r.None? ==> forall q, e :: p <= q ==> !FenceMatch(s, q, e)
    decreases |s| - p
  {
    if p == |s| then None
    else if Opens(s, p) then
      match CloseFrom(s, OpenBrace(s, p) + 1)
      case Some(e) => Some((p, e))
      case None => FencedFrom(s, p + 1)
    else FencedFrom(s, p + 1)
  }

  /** The first fenced match, leftmost and then shortest, as the span of its
    * group; `None` exactly when the pattern matches nowhere. */
  function FencedSpan(s: string): (r: Option<(nat, nat)>)
    ensures r.Some? ==> FenceMatch(s, r.value.0, r.value.1)
    ensures r.Some? ==> forall q, e :: FenceMatch(s, q, e) ==>
      r.value.0 < q || (r.value.0 == q && r.value.1 <= e)
    ensures r.None? <==> forall q, e :: !FenceMatch(s, q, e)
  {
    FencedFrom(s, 0)
  }

  /** The last index of `c` in `s`. */
  function LastIndexOf(s: string, c: char): (k: nat)
    requires c in s
    ensures k < |s| && s[k] == c && c !in s[k + 1..]
  {
    if s[|s| - 1] == c then |s| - 1
    else
      assert c in s[..|s| - 1];
      var k := LastIndexOf(s[..|s| - 1], c);
      assert s[k + 1..] == s[..|s| - 1][k + 1..] + [s[|s| - 1]];
      k
  }

  /** Some '{' comes before some '}'. */
  predicate HasBracePair(s: string) {
    exists i, j :: 0 <= i < j < |s| && s[i] == '{' && s[j] == '}'
  }

  /** `re.search(r'(\{[\s\S]*\})', text)`: from the first '{' to the last
    * '}', when the last '}' comes after the first '{'. */
  function BraceSpan(s: string): (r: Option<(nat, nat)>)
    ensures r.Some? ==> r.value.0 < r.value.1 < |s|
    ensures r.Some? ==> s[r.value.0] == '{' && '{' !in s[..r.value.0]
    ensures r.Some? ==> s[r.value.1] == '}' && '}' !in s[r.value.1 + 1..]
    ensures r.None? <==> !HasBracePair(s)
  {
    if '{' in s && '}' in s && IndexOf(s, '{') < LastIndexOf(s, '}') then
      Some((IndexOf(s, '{'), LastIndexOf(s, '}')))
    else
      None
  }

  /** The text `extract_json_from_text` hands to `json.loads`: the fenced
    * object if there is one, otherwise the brace span. */
  function JsonCandidate(s: string): (r: Option<string>)
    ensures r.Some? ==> Braced(r.value)
  {
    match FencedSpan(s)
    case Some((p, e)) => Some(FencedObject(s, p, e))
    case None =>
      match BraceSpan(s)
      case Some((a, b)) => Some(BracedText(s, a, b))
      case None => None
  }

  /** Text that starts with '{' and ends with '}'. */
  predicate Braced(x: string) {
    |x| >= 2 && x[0] == '{' && x[|x| - 1] == '}'
  }

  /** The object a fenced match captures. */
  function FencedObject(s: string, p: nat, e: nat): (r: string)
    requires FenceMatch(s, p, e)
    ensures Braced(r)
  {
    BracedText(s, OpenBrace(s, p), e)
  }

  /** The text from a '{' at `a` to a '}' at `b`. */
  function BracedText(s: string, a: nat, b: nat): (r: string)
    requires a < b < |s| && s[a] == '{' && s[b] == '}'
    ensures Braced(r)
  {
    s[a..b + 1]
  }

  /** There is a candidate exactly when a '{' comes before a '}' somewhere. */
  lemma CandidateIffBracePair(s: string)
    ensures JsonCandidate(s).Some? <==> HasBracePair(s)
  {
    match FencedSpan(s)
    case Some((p, e)) =>
      assert 0 <= OpenBrace(s, p) < e < |s|;
      assert s[OpenBrace(s, p)] == '{' && s[e] == '}';
    case None =>
  }

  /** The fenced object wins whenever the fenced pattern matches. */
  lemma FencePreferred(s: string, p: nat, e: nat)
    requires FenceMatch(s, p, e)
    ensures JsonCandidate(s).Some?
    ensures var (q, f) := FencedSpan(s).value; JsonCandidate(s).value == s[OpenBrace(s, q)..f + 1]
  {
  }

  // ---------------------------------------------------------------------------
  // evaluate_answer / evaluate_single_answer: the post-processing
  // ---------------------------------------------------------------------------

  /** A decoded JSON value. */
  datatype Json =
    | JNull
    | JBool(b: bool)
    | JNum(n: real)
    | JStr(str: string)
    | JArr(items: seq<Json>)
    | JObj(fields: map<string, Json>)

  type JsonObject = map<string, Json>

  /** `extract_json_from_text`. `parseObject` stands for `json.loads` on a text
    * that starts with '{': it yields an object, or `None` where `json.loads`
    * raises. */
  function ExtractJson(text: string, parseObject: string -> Option<JsonObject>): (r: Option<JsonObject>)
    ensures !HasBracePair(text) ==> r.None?
    ensures HasBracePair(text) ==> JsonCandidate(text).Some? && r == parseObject(JsonCandidate(text).value)
  {
    CandidateIffBracePair(text);
    match JsonCandidate(text)
    case Some(c) => parseObject(c)
    case None => None
  }

  const FeedbackKey := "feedback"

  /** The object the evaluation endpoints return when no object with a
    * "feedback" key is found: no score, the reply's text as "raw" and its
    * truncation as "feedback". */
  function FeedbackObject(raw: string, feedback: string): (r: JsonObject)
    ensures r.Keys == {"score", FeedbackKey, "strengths", "improvements", "followUpQuestions", "raw"}
    ensures r["score"] == JNull && r["raw"] == JStr(raw) && r[FeedbackKey] == JStr(feedback)
  {
    map[
      "score" := JNull,
      "strengths" := JNull,
      "improvements" := JNull,
      "followUpQuestions" := JNull,
      "raw" := JStr(raw),
      FeedbackKey := JStr(feedback)
    ]
  }

  /** The reply read as feedback: `raw_text` is the stripped reply. */
  function FallbackEvaluation(text: string): JsonObject {
    var raw := PyStrip(text);
    FeedbackObject(raw, TruncateFeedback(raw, MaxSentences))
  }

  /** The evaluation endpoints' result for the object found in the model's
    * reply `text`, if any. An object whose "feedback" is not a string makes
    * `truncate_feedback` raise a TypeError, which is the `Err` case. */
  function EvaluationOf(found: Option<JsonObject>, text: string): (r: Result<JsonObject, string>)
    ensures found.None? || FeedbackKey !in found.value ==> r == Ok(FallbackEvaluation(text))
    ensures found.Some? && FeedbackKey in found.value ==>
      (r.Ok? <==> found.value[FeedbackKey].JStr?)
    ensures found.Some? && FeedbackKey in found.value && r.Ok? ==>
      r.value.Keys == found.value.Keys
      && (forall k :: k in found.value && k != FeedbackKey ==> r.value[k] == found.value[k])
      && r.value[FeedbackKey] == JStr(TruncateFeedback(found.value[FeedbackKey].str, MaxSentences))
  {
    if found.Some? && FeedbackKey in found.value then
      var obj := found.value;
      match obj[FeedbackKey]
      case JStr(f) => Ok(obj[FeedbackKey := JStr(TruncateFeedback(f, MaxSentences))])
      case _ => Err("TypeError")
    else Ok(FallbackEvaluation(text))
  }

  /** `evaluate_answer` and `evaluate_single_answer` after the model call. A
    * reply in which no '{' precedes a '}' is always read as feedback; whatever
    * comes back carries a "feedback" string of at most three sentences; and
    * the only failure is a found object whose "feedback" is not a string. */
  function EvaluationFromResponse(text: string, parseObject: string -> Option<JsonObject>): (r: Result<JsonObject, string>)
    ensures !HasBracePair(text) ==> r == Ok(FallbackEvaluation(text))
    ensures r.Ok? ==> FeedbackKey in r.value && r.value[FeedbackKey].JStr?
                      && |Sentences(r.value[FeedbackKey].str)| <= MaxSentences
    ensures r.Err? <==> var found := ExtractJson(text, parseObject);
                        found.Some? && FeedbackKey in found.value && !found.value[FeedbackKey].JStr?
  {
    var found := ExtractJson(text, parseObject);
    var r := EvaluationOf(found, text);
    if found.Some? && FeedbackKey in found.value && r.Ok? then
      TruncationKeepsAtMost(found.value[FeedbackKey].str, MaxSentences);
      r
    else
      TruncationKeepsAtMost(PyStrip(text), MaxSentences);
      r
  }

  // ---------------------------------------------------------------------------
  // The line filters of the question generators
  // ---------------------------------------------------------------------------

  /** No white space at either end. */
  predicate Tidy(x: string) {
    x == [] || (!IsPySpace(x[0]) && !IsPySpace(x[|x| - 1]))
  }

  /** The characters of `strip('- ')`. */
  predicate IsDashOrSpace(c: char) {
    c == '-' || c == ' '
  }

  /** `l.strip('- ').strip()`. */
  function Clean(l: string): (r: string)
    ensures Tidy(r)
  {
    StripTidy(Trim(l, IsDashOrSpace))
  }

  /** `.strip()`, which leaves no white space at either end. */
  function StripTidy(l: string): (r: string)
    ensures Tidy(r)
  {
    PyStrip(l)
  }

  /** Cleaning adds no character. */
  lemma CleanAddsNothing(l: string, c: char)
    ensures c in Clean(l) ==> c in l
  {
    var inner := Trim(l, IsDashOrSpace);
    assert Clean(l) == Trim(inner, IsPySpace);
    if c in Clean(l) {
      TrimSub(inner, IsPySpace, c);
      TrimSub(l, IsDashOrSpace, c);
    }
  }

  /** Cleaning keeps every '?'. */
  lemma CleanKeepsQuestionMark(l: string)
    ensures '?' in l ==> '?' in Clean(l)
  {
    var inner := Trim(l, IsDashOrSpace);
    assert Clean(l) == Trim(inner, IsPySpace);
    if '?' in l {
      assert !IsDashOrSpace('?') && !IsPySpace('?');
      TrimKeeps(l, IsDashOrSpace, '?');
      assert '?' in inner;
      TrimKeeps(inner, IsPySpace, '?');
    }
  }

  /** Cleaning never adds or removes a '?', and it adds no character at all. */
  lemma CleanKeeps(l: string, c: char)
    ensures c in Clean(l) ==> c in l
    ensures c == '?' ==> (c in Clean(l) <==> c in l)
  {
    CleanAddsNothing(l, c);
    CleanKeepsQuestionMark(l);
  }

  /** `not l.strip()`: the line is empty or all white space. */
  predicate Blank(l: string) {
    All(l, IsPySpace)
  }

  lemma BlankIffStripsToEmpty(l: string)
    ensures Blank(l) <==> PyStrip(l) == ""
  {
  }

  /** The lines that are not blank, in order. */
  function NonBlankLines(lines: seq<string>): (r: seq<string>)
    ensures forall i :: 0 <= i < |r| ==> !Blank(r[i])
    ensures r == [] <==> forall i :: 0 <= i < |lines| ==> Blank(lines[i])
    ensures forall x :: x in r ==> x in lines
  {
    if lines == [] then []
    else
      var rest := NonBlankLines(lines[1..]);
      if !Blank(lines[0]) then [lines[0]] + rest else rest
  }

  /** The lines that contain '?', in order. */
  function QuestionLines(lines: seq<string>): (r: seq<string>)
    ensures forall i :: 0 <= i < |r| ==> '?' in r[i]
    ensures |r| <= |lines|
    ensures forall x :: x in r ==> x in lines
  {
    if lines == [] then []
    else
      var rest := QuestionLines(lines[1..]);
      if '?' in lines[0] then [lines[0]] + rest else rest
  }

  /** Every line that is not blank is kept. */
  lemma {:induction false} NonBlankLinesComplete(lines: seq<string>)
    ensures forall x :: x in lines && !Blank(x) ==> x in NonBlankLines(lines)
  {
    if lines != [] {
      NonBlankLinesComplete(lines[1..]);
      assert forall x :: x in lines ==> x == lines[0] || x in lines[1..];
    }
  }

  /** Every line that contains '?' is kept. */
  lemma {:induction false} QuestionLinesComplete(lines: seq<string>)
    ensures forall x :: x in lines && '?' in x ==> x in QuestionLines(lines)
  {
    if lines != [] {
      QuestionLinesComplete(lines[1..]);
      assert forall x :: x in lines ==> x == lines[0] || x in lines[1..];
    }
  }

  /** `[f(x) for x in xs]`. */
  function Each(f: string -> string, xs: seq<string>): (r: seq<string>)
    ensures |r| == |xs| && forall i :: 0 <= i < |xs| ==> r[i] == f(xs[i])
  {
    seq(|xs|, i requires 0 <= i < |xs| => f(xs[i]))
  }

  lemma EachCons(f: string -> string, x: string, xs: seq<string>)
    ensures Each(f, [x] + xs) == [f(x)] + Each(f, xs)
  {
    assert forall i :: 0 < i <= |xs| ==> ([x] + xs)[i] == xs[i - 1];
  }

  function CleanAll(lines: seq<string>): (r: seq<string>)
    ensures |r| == |lines| && forall i :: 0 <= i < |r| ==> r[i] == Clean(lines[i])
    ensures forall x :: x in r ==> Tidy(x)
  {
    Each(Clean, lines)
  }

  /** `generate_questions`: the non-blank lines of the stripped reply, cleaned,
    * keeping those that still contain '?'. Every question has a '?' and no
    * white space at either end. */
  function QuestionsFromResponse(text: string): (r: seq<string>)
    ensures forall i :: 0 <= i < |r| ==> '?' in r[i] && Tidy(r[i])
  {
    var lines := Split(PyStrip(text), '\n');
    var cleaned := CleanAll(NonBlankLines(lines));
    var r := QuestionLines(cleaned);
    forall i | 0 <= i < |r|
      ensures Tidy(r[i])
    {
      assert r[i] in cleaned;
    }
    r
  }

  lemma CleanAllCons(l: string, ls: seq<string>)
    ensures CleanAll([l] + ls) == [Clean(l)] + CleanAll(ls)
  {
    EachCons(Clean, l, ls);
  }

  lemma FiltersCons(l: string, ls: seq<string>)
    ensures NonBlankLines([l] + ls) == if Blank(l) then NonBlankLines(ls) else [l] + NonBlankLines(ls)
    ensures QuestionLines([l] + ls) == if '?' in l then [l] + QuestionLines(ls) else QuestionLines(ls)
  {
  }

  /** Dropping blank lines, cleaning, then keeping lines with '?' is the same
    * as keeping the lines with '?' and cleaning them. */
  lemma {:induction false} FilterOrder(lines: seq<string>)
    ensures QuestionLines(CleanAll(NonBlankLines(lines))) == CleanAll(QuestionLines(lines))
  {
    if lines != [] {
      var l, rest := lines[0], lines[1..];
      assert lines == [l] + rest;
      FilterOrder(rest);
      FiltersCons(l, rest);
      CleanKeeps(l, '?');
      if '?' in l {
        var k :| 0 <= k < |l| && l[k] == '?';
        assert !Blank(l);
        CleanAllCons(l, NonBlankLines(rest));
        CleanAllCons(l, QuestionLines(rest));
        FiltersCons(Clean(l), CleanAll(NonBlankLines(rest)));
      } else if !Blank(l) {
        CleanAllCons(l, NonBlankLines(rest));
        FiltersCons(Clean(l), CleanAll(NonBlankLines(rest)));
      }
    }
  }

  /** Hence `generate_questions` keeps exactly the cleaned lines that contain '?'. */
  lemma QuestionsAreQuestionLines(text: string)
    ensures QuestionsFromResponse(text) == CleanAll(QuestionLines(Split(PyStrip(text), '\n')))
  {
    FilterOrder(Split(PyStrip(text), '\n'));
  }

  const QuestionCount := 6

  /** `isinstance(questions, list) and len(questions) == 6`. */
  predicate IsSixList(parsed: Option<Json>) {
    parsed.Some? && parsed.value.JArr? && |parsed.value.items| == QuestionCount
  }

  /** `generate_interview_questions`: `parse` stands for `json.loads` on the
    * whole reply (`None` where it raises). A list is used only when it has
    * exactly six elements; otherwise at most six cleaned lines containing '?'. */
  function InterviewQuestionsFromResponse(text: string, parse: string -> Option<Json>): (r: seq<Json>)
    ensures |r| <= QuestionCount
    ensures IsSixList(parse(text)) ==>
      r == parse(text).value.items
    ensures !(IsSixList(parse(text))) ==>
      forall i :: 0 <= i < |r| ==> r[i].JStr? && '?' in r[i].str
    ensures !(IsSixList(parse(text))) ==>
      var found := QuestionLines(Split(text, '\n'));
      |r| == (if |found| < QuestionCount then |found| else QuestionCount)
      && forall i :: 0 <= i < |r| ==> r[i] == JStr(Clean(found[i]))
  {
    if IsSixList(parse(text)) then parse(text).value.items
    else
      var lines := SlicePrefix(CleanAll(QuestionLines(Split(text, '\n'))), QuestionCount);
      forall i | 0 <= i < |lines|
        ensures '?' in lines[i]
      {
        CleanKeeps(QuestionLines(Split(text, '\n'))[i], '?');
      }
      seq(|lines|, i requires 0 <= i < |lines| => JStr(lines[i]))
  }

  // ---------------------------------------------------------------------------
  // next_interview_question
  // ---------------------------------------------------------------------------

  const IntroLead := "The candidate introduced themselves as: "

  /** `intro_part`: the introduction goes into the prompt only when one is
    * given and there is no history yet (`None` stands for a missing value). */
  function IntroPart(userIntro: Option<string>, chatHistory: Option<seq<Json>>): (r: string)
    ensures r != "" <==> userIntro.Some? && userIntro.value != "" && (chatHistory.None? || chatHistory.value == [])
    ensures r != "" ==>
      |r| == |IntroLead| + |userIntro.value| + 1 && StartsWith(r, IntroLead)
      && r[|IntroLead|..|r| - 1] == userIntro.value && r[|r| - 1] == '\n'
  {
    if userIntro.Some? && userIntro.value != "" && (chatHistory.None? || chatHistory.value == []) then
      IntroLead + userIntro.value + "\n"
    else ""
  }

  const DefaultQuestion := "Can you tell me more about your experience?"

  /** The reply of `next_interview_question` for the model's text. */
  function NextQuestionFromResponse(text: string): (r: string)
    ensures (forall i :: 0 <= i < |Split(text, '\n')| ==> Blank(Split(text, '\n')[i])) ==> r == DefaultQuestion
    ensures !(forall i :: 0 <= i < |Split(text, '\n')| ==> Blank(Split(text, '\n')[i])) ==>
      r == Join(CleanAll(NonBlankLines(Split(text, '\n'))), "\n")
  {
    var lines := CleanAll(NonBlankLines(Split(text, '\n')));
    if lines != [] then Join(lines, "\n") else DefaultQuestion
  }

  /** A reply with a non-blank line comes back as its cleaned non-blank lines:
    * splitting the result on '\n' gives them back one by one. */
  lemma NextQuestionLines(text: string)
    requires exists i :: 0 <= i < |Split(text, '\n')| && !Blank(Split(text, '\n')[i])
    ensures Split(NextQuestionFromResponse(text), '\n') == CleanAll(NonBlankLines(Split(text, '\n')))
  {
    var parts := Split(text, '\n');
    var kept := NonBlankLines(parts);
    var lines := CleanAll(kept);
    assert kept != [];
    assert NextQuestionFromResponse(text) == Join(lines, "\n");
    forall i | 0 <= i < |lines|
      ensures '\n' !in lines[i]
    {
      assert kept[i] in parts;
      CleanKeeps(kept[i], '\n');
    }
    SplitJoin(lines, '\n');
  }
}
