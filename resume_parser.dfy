/**
 * The résumé text heuristics of backend/utils/parser.js: splitting plain
 * résumé text into sections by header keywords, and adding up the year
 * ranges it mentions.
 */
module ResumeParser {
  import opened Wrappers
  import opened Text

  // ---------------------------------------------------------------------------
  // Sections
  // ---------------------------------------------------------------------------

  /** The keys of the object `extractTextSections` returns. */
  datatype Section = General | Summary | Experience | Education | Skills | Projects | Certifications | Achievements

  /** The sections that have header keywords, in declaration order (the order
    * `Object.entries` visits them in). */
  const HeaderSections: seq<Section> :=
    [Summary, Experience, Education, Skills, Projects, Certifications, Achievements]

  /** The property name each section is stored under. */
  function Key(s: Section): string {
    match s
    case General => "general"
    case Summary => "summary"
    case Experience => "experience"
    case Education => "education"
    case Skills => "skills"
    case Projects => "projects"
    case Certifications => "certifications"
    case Achievements => "achievements"
  }

  function Keywords(s: Section): seq<string> {
    match s
    case General => []
    case Summary => ["summary", "profile", "objective", "about"]
    case Experience => ["experience", "work", "employment", "career", "professional"]
    case Education => ["education", "academic", "degree", "university", "college"]
    case Skills => ["skills", "technical", "technologies", "tools", "competencies"]
    case Projects => ["projects", "portfolio", "work samples"]
    case Certifications => ["certifications", "certificates", "licenses"]
    case Achievements => ["achievements", "awards", "honors", "accomplishments"]
  }

  /** A line heads section `s` when its JavaScript `length` is below 50 and its
    * lower-case form contains one of the section's keywords. */
  predicate IsHeaderFor(line: string, s: Section) {
    Utf16Length(line) < 50 && AnyContained(ToLower(line), Keywords(s))
  }

  /** `keywords.some(keyword => lowerLine.includes(keyword))`. */
  predicate AnyContained(lower: string, keywords: seq<string>) {
    exists k :: 0 <= k < |keywords| && Contains(lower, keywords[k])
  }

  /** The index of the first section, in declaration order from index `i` on,
    * that `line` heads; `|HeaderSections|` when there is none. */
  function HeaderIndexFrom(line: string, i: nat): (r: nat)
    requires i <= |HeaderSections|
    ensures i <= r <= |HeaderSections|
    ensures r < |HeaderSections| ==> IsHeaderFor(line, HeaderSections[r])
    ensures forall k :: i <= k < r ==> !IsHeaderFor(line, HeaderSections[k])
    decreases |HeaderSections| - i
  {
    if i == |HeaderSections| then i
    else if IsHeaderFor(line, HeaderSections[i]) then i
    else
      var r := HeaderIndexFrom(line, i + 1);
      assert forall k :: i + 1 <= k < r ==> !IsHeaderFor(line, HeaderSections[k]);
      r
  }

  /** The section a line is a header of, if any: the first match wins. */
  function HeaderOf(line: string): Option<Section> {
    var j := HeaderIndexFrom(line, 0);
    if j < |HeaderSections| then Some(HeaderSections[j]) else None
  }

  /** A line is a header exactly when some section's keywords match it, and
    * then it heads the first such section; General is never a header. */
  lemma HeaderOfFirstMatch(line: string)
    ensures HeaderOf(line).None? <==> forall j :: 0 <= j < |HeaderSections| ==> !IsHeaderFor(line, HeaderSections[j])
    ensures HeaderOf(line).Some? ==> exists j :: 0 <= j < |HeaderSections| && HeaderSections[j] == HeaderOf(line).value
                                       && IsHeaderFor(line, HeaderSections[j])
                                       && forall k :: 0 <= k < j ==> !IsHeaderFor(line, HeaderSections[k])
    ensures HeaderOf(line) != Some(General)
  {
    var j := HeaderIndexFrom(line, 0);
    if j < |HeaderSections| {
      assert HeaderSections[j] == HeaderOf(line).value;
    }
  }

  /** The inner `for … of Object.entries(sectionHeaders)` loop with its `break`. */
  method FindSection(line: string) returns (found: Option<Section>)
    ensures found == HeaderOf(line)
  {
    found := None;
    var i := 0;
    while i < |HeaderSections|
      invariant 0 <= i <= |HeaderSections|
      invariant HeaderIndexFrom(line, i) == HeaderIndexFrom(line, 0)
    {
      if IsHeaderFor(line, HeaderSections[i]) {
        found := Some(HeaderSections[i]);
        return;
      }
      i := i + 1;
    }
  }

  /** A line containing "work samples" can never head Projects: "work" belongs
    * to Experience, which is declared earlier and therefore wins. */
  lemma WorkSamplesIsExperience(line: string)
    requires Utf16Length(line) < 50 && Contains(ToLower(line), "work samples")
    ensures HeaderOf(line) == Some(Summary) || HeaderOf(line) == Some(Experience)
  {
    var w := ContainsWitness(ToLower(line), "work samples");
    var lower := ToLower(line);
    assert lower[w..w + 12] == "work samples";
    assert lower[w..w + 4] == lower[w..w + 12][..4];
    ContainsAt(ToLower(line), "work", w);
    assert Keywords(Experience)[1] == "work";
    assert IsHeaderFor(line, Experience);
    assert HeaderIndexFrom(line, 0) <= 1;
  }

  /** Trimmed, non-blank pieces of `parts`, in order (`.map(trim).filter(Boolean)`). */
  function NonBlankTrimmed(parts: seq<string>): seq<string> {
    if parts == [] then []
    else
      var t := JsTrim(parts[0]);
      var rest := NonBlankTrimmed(parts[1..]);
      if t == "" then rest else [t] + rest
  }

  /** The pieces kept are not empty, and trimming pieces without a line break
    * gives pieces without one. */
  lemma {:induction false} NonBlankTrimmedLines(parts: seq<string>)
    requires forall i :: 0 <= i < |parts| ==> '\n' !in parts[i]
    ensures forall i :: 0 <= i < |NonBlankTrimmed(parts)| ==> NonBlankTrimmed(parts)[i] != "" && '\n' !in NonBlankTrimmed(parts)[i]
  {
    if parts != [] {
      var t := JsTrim(parts[0]);
      var rest := NonBlankTrimmed(parts[1..]);
      NonBlankTrimmedLines(parts[1..]);
      if t != "" {
        if '\n' in t {
          TrimSub(parts[0], IsJsSpace, '\n');
        }
        var r := NonBlankTrimmed(parts);
        assert r == [t] + rest;
        forall i | 0 <= i < |r|
          ensures r[i] != "" && '\n' !in r[i]
        {
          if i > 0 {
            assert r[i] == rest[i - 1];
          }
        }
      }
    }
  }

  /** `.map(f).filter(Boolean)` for any `f`; the lemmas below hold whatever
    * `f` is, and `NonBlankTrimmed` is its instance for `trim`. */
  function MapNonEmpty(f: string -> string, parts: seq<string>): seq<string> {
    if parts == [] then []
    else
      var t := f(parts[0]);
      var rest := MapNonEmpty(f, parts[1..]);
      if t == "" then rest else [t] + rest
  }

  /** `idx` lists, in increasing order, exactly the positions of the pieces
    * that `f` does not map to "", and `r` holds their images, none of them
    * "". */
  predicate KeptAt(f: string -> string, parts: seq<string>, idx: seq<nat>, r: seq<string>) {
    |idx| == |r|
    && (forall i :: 0 <= i < |idx| ==> idx[i] < |parts| && r[i] == f(parts[idx[i]]) && r[i] != "")
    && (forall i, k :: 0 <= i < k < |idx| ==> idx[i] < idx[k])
    && (forall j :: 0 <= j < |parts| && f(parts[j]) != "" ==> j in idx)
  }

  /** The filter keeps the image of every piece that is not "", and nothing
    * else, in the order of the pieces. */
  lemma {:induction false} MapNonEmptyKeeps(f: string -> string, parts: seq<string>)
    ensures exists idx :: KeptAt(f, parts, idx, MapNonEmpty(f, parts))
    decreases |parts|
  {
    if parts == [] {
      var none: seq<nat> := [];
      assert KeptAt(f, parts, none, MapNonEmpty(f, parts));
    } else {
      var n := |parts| - 1;
      var init := parts[..n];
      MapNonEmptyKeeps(f, init);
      var idx0 :| KeptAt(f, init, idx0, MapNonEmpty(f, init));
      MapNonEmptySnoc(f, parts);
      KeptAtSnoc(f, parts, idx0, MapNonEmpty(f, init));
      if f(parts[n]) == "" {
        assert KeptAt(f, parts, idx0, MapNonEmpty(f, parts));
      } else {
        assert KeptAt(f, parts, idx0 + [n], MapNonEmpty(f, parts));
      }
    }
  }

  /** The filter read from the last piece backwards. */
  lemma {:induction false} MapNonEmptySnoc(f: string -> string, parts: seq<string>)
    requires parts != []
    ensures var n := |parts| - 1;
      MapNonEmpty(f, parts) == MapNonEmpty(f, parts[..n]) + (if f(parts[n]) == "" then [] else [f(parts[n])])
    decreases |parts|
  {
    var n := |parts| - 1;
    if n > 0 {
      var tail := parts[1..];
      MapNonEmptySnoc(f, tail);
      assert tail[..n - 1] == parts[..n][1..];
      assert tail[n - 1] == parts[n];
      assert parts[..n][0] == parts[0];
    } else {
      assert parts[..n] == [];
      assert parts[1..] == [];
    }
  }

  /** One more piece at the end: it is kept, at the next position, exactly
    * when its image is not "". */
  lemma KeptAtSnoc(f: string -> string, parts: seq<string>, idx0: seq<nat>, r0: seq<string>)
    requires parts != [] && KeptAt(f, parts[..|parts| - 1], idx0, r0)
    ensures var n := |parts| - 1;
      if f(parts[n]) == "" then KeptAt(f, parts, idx0, r0)
      else KeptAt(f, parts, idx0 + [n], r0 + [f(parts[n])])
  {
    var n := |parts| - 1;
    var init := parts[..n];
    assert forall j :: 0 <= j < n ==> parts[j] == init[j];
    if f(parts[n]) != "" {
      var idx := idx0 + [n];
      var r := r0 + [f(parts[n])];
      forall i | 0 <= i < |idx|
        ensures idx[i] < |parts| && r[i] == f(parts[idx[i]]) && r[i] != ""
      {
        if i < |idx0| {
          assert idx[i] == idx0[i] && r[i] == r0[i];
        }
      }
      forall j | 0 <= j < |parts| && f(parts[j]) != ""
        ensures j in idx
      {
        if j < n {
          assert j in idx0;
        } else {
          assert idx[|idx0|] == j;
        }
      }
    }
  }

  /** `NonBlankTrimmed` is the filter above with `trim` as `f`. */
  lemma {:induction false} NonBlankTrimmedIsMap(parts: seq<string>)
    ensures NonBlankTrimmed(parts) == MapNonEmpty(JsTrim, parts)
    decreases |parts|
  {
    if parts != [] {
      NonBlankTrimmedIsMap(parts[1..]);
    }
  }

  /** `text.split('\n').map(line => line.trim()).filter(line => line)`. */
  function Lines(text: string): (r: seq<string>)
    ensures forall i :: 0 <= i < |r| ==> r[i] != "" && '\n' !in r[i]
  {
    NonBlankTrimmedLines(Split(text, '\n'));
    NonBlankTrimmed(Split(text, '\n'))
  }

  /** Each line of the result is a trimmed line of the text, in the order of
    * the text, and every line of the text that is not blank once trimmed is
    * there. */
  lemma LinesKeep(text: string)
    ensures exists idx :: KeptAt(JsTrim, Split(text, '\n'), idx, Lines(text))
  {
    var parts := Split(text, '\n');
    NonBlankTrimmedIsMap(parts);
    MapNonEmptyKeeps(JsTrim, parts);
    var idx :| KeptAt(JsTrim, parts, idx, MapNonEmpty(JsTrim, parts));
    assert Lines(text) == MapNonEmpty(JsTrim, parts);
    assert KeptAt(JsTrim, parts, idx, Lines(text));
  }

  /** `sections[currentSection] = currentContent.join('\n')` when the block is not empty. */
  function Flush(acc: map<Section, string>, cur: Section, content: seq<string>): map<Section, string> {
    if |content| > 0 then acc[cur := Join(content, "\n")] else acc
  }

  /** The `forEach` over the lines from some point on, given the current section,
    * the content gathered so far and the sections written so far. */
  function Scan(lines: seq<string>, cur: Section, content: seq<string>, acc: map<Section, string>): map<Section, string>
    decreases |lines|
  {
    if lines == [] then Flush(acc, cur, content)
    else match HeaderOf(lines[0])
      case Some(s) => Scan(lines[1..], s, [], Flush(acc, cur, content))
      case None => Scan(lines[1..], cur, content + [lines[0]], acc)
  }

  /** What `extractTextSections(text)` returns. Header lines never reach any
    * section's content, and no section is stored empty. */
  function Sections(text: string): (r: map<Section, string>)
    ensures forall s :: s in r ==> IsContentOf(r[s], Lines(text))
  {
    ScanKeepsContent(Lines(text), Lines(text), General, [], map[]);
    Scan(Lines(text), General, [], map[])
  }

  /** `extractTextSections`, written as the loop the source runs. */
  method ExtractTextSections(text: string) returns (sections: map<Section, string>)
    ensures sections == Sections(text)
  {
    var lines := Lines(text);
    sections := map[];
    var currentSection := General;
    var currentContent: seq<string> := [];
    var i := 0;
    while i < |lines|
      invariant 0 <= i <= |lines|
      invariant Scan(lines[i..], currentSection, currentContent, sections) == Sections(text)
    {
      var line := lines[i];
      var foundSection := FindSection(line);
      assert lines[i..][1..] == lines[i + 1..];
      if foundSection.Some? {
        if |currentContent| > 0 {
          sections := sections[currentSection := Join(currentContent, "\n")];
        }
        currentSection := foundSection.value;
        currentContent := [];
      } else {
        currentContent := currentContent + [line];
      }
      i := i + 1;
    }
    if |currentContent| > 0 {
      sections := sections[currentSection := Join(currentContent, "\n")];
    }
  }

  /** A stored section body: non-empty, and every one of its lines is a
    * content line of the text, never a header. */
  ghost predicate IsContentOf(v: string, lines: seq<string>) {
    v != "" && forall l :: l in Split(v, '\n') ==> l in lines && HeaderOf(l).None?
  }

  lemma JoinNonEmpty(parts: seq<string>, sep: string)
    requires |parts| >= 1 && parts[0] != ""
    ensures Join(parts, sep) != ""
  {
    if |parts| > 1 {
      assert Join(parts, sep)[0] == parts[0][0];
    }
  }

  /** Writing out the gathered content keeps every stored section a content block. */
  lemma FlushKeepsContent(all: seq<string>, cur: Section, content: seq<string>, acc: map<Section, string>)
    requires forall l :: l in content ==> l in all && l != "" && '\n' !in l && HeaderOf(l).None?
    requires forall s :: s in acc ==> IsContentOf(acc[s], all)
    ensures forall s :: s in Flush(acc, cur, content) ==> IsContentOf(Flush(acc, cur, content)[s], all)
  {
    if |content| > 0 {
      SplitJoin(content, '\n');
      JoinNonEmpty(content, "\n");
    }
  }

  lemma {:induction false} ScanKeepsContent(all: seq<string>, lines: seq<string>, cur: Section,
                                            content: seq<string>, acc: map<Section, string>)
    requires forall l :: l in lines ==> l in all && l != "" && '\n' !in l
    requires forall l :: l in content ==> l in all && l != "" && '\n' !in l && HeaderOf(l).None?
    requires forall s :: s in acc ==> IsContentOf(acc[s], all)
    ensures forall s :: s in Scan(lines, cur, content, acc) ==> IsContentOf(Scan(lines, cur, content, acc)[s], all)
    decreases |lines|
  {
    if lines == [] {
      FlushKeepsContent(all, cur, content, acc);
    } else {
      assert forall l :: l in lines[1..] ==> l in lines;
      match HeaderOf(lines[0]) {
        case Some(s) =>
          FlushKeepsContent(all, cur, content, acc);
          ScanKeepsContent(all, lines[1..], s, [], Flush(acc, cur, content));
        case None =>
          var line := lines[0];
          assert line in lines && HeaderOf(line).None?;
          assert forall l :: l in content + [line] ==> l in content || l == line;
          ScanKeepsContent(all, lines[1..], cur, content + [line], acc);
      }
    }
  }

  lemma {:induction false} ScanWithoutHeaders(lines: seq<string>, cur: Section, content: seq<string>, acc: map<Section, string>)
    requires forall l :: l in lines ==> HeaderOf(l).None?
    ensures Scan(lines, cur, content, acc) == Flush(acc, cur, content + lines)
    decreases |lines|
  {
    if lines == [] {
      assert content + lines == content;
    } else {
      ScanWithoutHeaders(lines[1..], cur, content + [lines[0]], acc);
      assert content + [lines[0]] + lines[1..] == content + lines;
    }
  }

  /** Non-header lines ahead of the rest only join the current block. */
  lemma {:induction false} ScanThroughContent(lines: seq<string>, rest: seq<string>, cur: Section, content: seq<string>, acc: map<Section, string>)
    requires forall l :: l in lines ==> HeaderOf(l).None?
    ensures Scan(lines + rest, cur, content, acc) == Scan(rest, cur, content + lines, acc)
    decreases |lines|
  {
    if lines == [] {
      assert lines + rest == rest;
      assert content + lines == content;
    } else {
      assert (lines + rest)[0] == lines[0];
      assert (lines + rest)[1..] == lines[1..] + rest;
      ScanThroughContent(lines[1..], rest, cur, content + [lines[0]], acc);
      assert content + [lines[0]] + lines[1..] == content + lines;
    }
  }

  /** A section already written keeps its text while no later header names it. */
  lemma {:induction false} ScanKeepsSection(lines: seq<string>, cur: Section, content: seq<string>, acc: map<Section, string>, k: Section)
    requires k in acc && cur != k
    requires forall i :: 0 <= i < |lines| ==> HeaderOf(lines[i]) != Some(k)
    ensures k in Scan(lines, cur, content, acc) && Scan(lines, cur, content, acc)[k] == acc[k]
    decreases |lines|
  {
    if lines != [] {
      var h := HeaderOf(lines[0]);
      if h.Some? {
        var a1 := Flush(acc, cur, content);
        assert k in a1 && a1[k] == acc[k];
        ScanKeepsSection(lines[1..], h.value, [], a1, k);
      } else {
        ScanKeepsSection(lines[1..], cur, content + [lines[0]], acc, k);
      }
    }
  }

  /** A header followed by non-header lines to the end of the text stores
    * exactly those lines, joined by newlines, under the header's section. */
  lemma HeaderBlockGoesToSection(h: string, body: seq<string>, cur: Section, content: seq<string>, acc: map<Section, string>)
    requires HeaderOf(h).Some? && body != [] && forall l :: l in body ==> HeaderOf(l).None?
    ensures Scan([h] + body, cur, content, acc) == Flush(acc, cur, content)[HeaderOf(h).value := Join(body, "\n")]
  {
    assert ([h] + body)[1..] == body;
    ScanWithoutHeaders(body, HeaderOf(h).value, [], Flush(acc, cur, content));
    assert [] + body == body;
  }

  /** A header line flushes the block before it and starts its own, empty. */
  lemma ScanAtHeader(h: string, rest: seq<string>, cur: Section, content: seq<string>, acc: map<Section, string>)
    requires HeaderOf(h).Some?
    ensures Scan([h] + rest, cur, content, acc) == Scan(rest, HeaderOf(h).value, [], Flush(acc, cur, content))
  {
    assert ([h] + rest)[1..] == rest;
  }

  /** A block of content ends at the next header, or at the end of the text,
    * and is stored whole under its section unless a later header names it. */
  lemma BlockEnds(post: seq<string>, k: Section, body: seq<string>, acc: map<Section, string>)
    requires body != []
    requires post == [] || HeaderOf(post[0]).Some?
    requires forall i :: 0 <= i < |post| ==> HeaderOf(post[i]) != Some(k)
    ensures k in Scan(post, k, body, acc) && Scan(post, k, body, acc)[k] == Join(body, "\n")
  {
    var a2 := acc[k := Join(body, "\n")];
    assert Flush(acc, k, body) == a2;
    if post != [] {
      var s2 := HeaderOf(post[0]).value;
      assert Scan(post, k, body, acc) == Scan(post[1..], s2, [], a2);
      assert forall i :: 0 <= i < |post[1..]| ==> post[1..][i] == post[i + 1];
      ScanKeepsSection(post[1..], s2, [], a2, k);
    }
  }

  /** A block that ends at the next header (or at the end of the text) and
    * whose section no later header names again is what the scan stores for
    * that section. */
  lemma BlockThenRest(h: string, body: seq<string>, post: seq<string>,
                      cur: Section, content: seq<string>, acc: map<Section, string>)
    requires HeaderOf(h).Some? && body != [] && forall l :: l in body ==> HeaderOf(l).None?
    requires post == [] || HeaderOf(post[0]).Some?
    requires forall i :: 0 <= i < |post| ==> HeaderOf(post[i]) != HeaderOf(h)
    ensures HeaderOf(h).value in Scan([h] + body + post, cur, content, acc)
    ensures Scan([h] + body + post, cur, content, acc)[HeaderOf(h).value] == Join(body, "\n")
  {
    var k := HeaderOf(h).value;
    var a1 := Flush(acc, cur, content);
    assert [h] + body + post == [h] + (body + post);
    ScanAtHeader(h, body + post, cur, content, acc);
    ScanThroughContent(body, post, k, [], a1);
    assert [] + body == body;
    BlockEnds(post, k, body, a1);
  }

  /** The same after any lines: what comes before the block does not matter. */
  lemma {:induction false} ScanStoresBlock(pre: seq<string>, rest: seq<string>, h: string, body: seq<string>, post: seq<string>,
                                           cur: Section, content: seq<string>, acc: map<Section, string>)
    requires rest == [h] + body + post
    requires HeaderOf(h).Some? && body != [] && forall l :: l in body ==> HeaderOf(l).None?
    requires post == [] || HeaderOf(post[0]).Some?
    requires forall i :: 0 <= i < |post| ==> HeaderOf(post[i]) != HeaderOf(h)
    ensures HeaderOf(h).value in Scan(pre + rest, cur, content, acc)
    ensures Scan(pre + rest, cur, content, acc)[HeaderOf(h).value] == Join(body, "\n")
    decreases |pre|
  {
    if pre == [] {
      assert pre + rest == rest;
      BlockThenRest(h, body, post, cur, content, acc);
    } else {
      assert (pre + rest)[0] == pre[0];
      assert (pre + rest)[1..] == pre[1..] + rest;
      var g := HeaderOf(pre[0]);
      if g.Some? {
        ScanStoresBlock(pre[1..], rest, h, body, post, g.value, [], Flush(acc, cur, content));
      } else {
        ScanStoresBlock(pre[1..], rest, h, body, post, cur, content + [pre[0]], acc);
      }
    }
  }

  /** Regrouping the lines around a block. */
  lemma BlockAfter(pre: seq<string>, h: string, body: seq<string>, post: seq<string>)
    ensures pre + [h] + body + post == pre + ([h] + body + post)
  {
  }

  /** What a header block of the text becomes in `extractTextSections`: the
    * block's lines under its section, unless a later header names the same
    * section again (the later block then overwrites it). */
  lemma HeaderBlockInSections(text: string, pre: seq<string>, h: string, body: seq<string>, post: seq<string>)
    requires Lines(text) == pre + [h] + body + post
    requires HeaderOf(h).Some? && body != [] && forall l :: l in body ==> HeaderOf(l).None?
    requires post == [] || HeaderOf(post[0]).Some?
    requires forall i :: 0 <= i < |post| ==> HeaderOf(post[i]) != HeaderOf(h)
    ensures HeaderOf(h).value in Sections(text)
    ensures Sections(text)[HeaderOf(h).value] == Join(body, "\n")
  {
    BlockAfter(pre, h, body, post);
    ScanStoresBlock(pre, [h] + body + post, h, body, post, General, [], map[]);
  }

  /** Without header lines, all content goes to "general", joined by newlines. */
  lemma NoHeadersAllGeneral(text: string)
    requires forall l :: l in Lines(text) ==> HeaderOf(l).None?
    ensures Lines(text) == [] ==> Sections(text) == map[]
    ensures Lines(text) != [] ==> Sections(text) == map[General := Join(Lines(text), "\n")]
  {
    ScanWithoutHeaders(Lines(text), General, [], map[]);
    assert [] + Lines(text) == Lines(text);
  }

  // ---------------------------------------------------------------------------
  // Experience years
  // ---------------------------------------------------------------------------

  /** The two capture groups of one match of
    * `/(\d{4})\s*[-–]\s*(\d{4}|present|current)/gi`. */
  datatype RangeMatch = RangeMatch(start: string, end: string)

  predicate IsDigits(s: string) {
    |s| == 4 && All(s, IsAsciiDigit)
  }

  /** What the pattern's groups can hold. */
  predicate WellFormed(m: RangeMatch) {
    IsDigits(m.start) && (IsDigits(m.end) || ToLower(m.end) == "present" || ToLower(m.end) == "current")
  }

  /** Index of the first character at or after `i` that is not white space (`\s*`). */
  function SkipSpaces(s: string, i: nat): (j: nat)
    requires i <= |s|
    ensures i <= j <= |s| && (j < |s| ==> !IsJsSpace(s[j]))
    decreases |s| - i
  {
    if i < |s| && IsJsSpace(s[i]) then SkipSpaces(s, i + 1) else i
  }

  /** The alternation `(\d{4}|present|current)` at `k`, tried left to right,
    * with the `i` flag (ASCII case folding). */
  function EndAt(s: string, k: nat): (r: Option<string>)
    requires k <= |s|
    ensures r.Some? ==> k + |r.value| <= |s| && s[k..k + |r.value|] == r.value
    ensures r.Some? ==> IsDigits(r.value) || ToLower(r.value) == "present" || ToLower(r.value) == "current"
  {
    if k + 4 <= |s| && IsDigits(s[k..k + 4]) then Some(s[k..k + 4])
    else if k + 7 <= |s| && ToLower(s[k..k + 7]) == "present" then Some(s[k..k + 7])
    else if k + 7 <= |s| && ToLower(s[k..k + 7]) == "current" then Some(s[k..k + 7])
    else None
  }

  /** A match of the whole pattern starting exactly at `i`, and the index after it.
    * Neither `\s*` can give characters back usefully: the next token never
    * starts with white space, so greedy matching is exact. */
  function MatchAt(s: string, i: nat): (r: Option<(RangeMatch, nat)>)
    requires i <= |s|
    ensures r.Some? ==> WellFormed(r.value.0) && i + 4 < r.value.1 <= |s|
  {
    if i + 4 <= |s| && IsDigits(s[i..i + 4]) then
      var j := SkipSpaces(s, i + 4);
      if j < |s| && (s[j] == '-' || s[j] == '\U{2013}') then
        var k := SkipSpaces(s, j + 1);
        match EndAt(s, k)
        case Some(e) => Some((RangeMatch(s[i..i + 4], e), k + |e|))
        case None => None
      else None
    else None
  }

  /** `text.matchAll(datePattern)` from index `i`: after a match the search
    * resumes where it ended, otherwise one character further on. */
  function MatchesFrom(s: string, i: nat): (ms: seq<RangeMatch>)
    requires i <= |s|
    ensures forall k :: 0 <= k < |ms| ==> WellFormed(ms[k])
    ensures |ms| <= |s| - i
    decreases |s| - i
  {
    if i == |s| then []
    else match MatchAt(s, i)
      case Some((m, e)) => [m] + MatchesFrom(s, e)
      case None => MatchesFrom(s, i + 1)
  }

  function Matches(text: string): seq<RangeMatch> {
    MatchesFrom(text, 0)
  }


  /** The end year: the current year when the group mentions 'present' or
    * 'current' in any case, otherwise its digits. */
  function EndYear(m: RangeMatch, currentYear: int): int
    requires WellFormed(m)
  {
    var lower := ToLower(m.end);
    if Contains(lower, "present") || Contains(lower, "current") then currentYear
    else DigitsValue(m.end)
  }

  /** One range adds `end - start` years, and nothing when it runs backwards. */
  function Contribution(m: RangeMatch, currentYear: int): nat
    requires WellFormed(m)
  {
    var startYear := DigitsValue(m.start);
    var endYear := EndYear(m, currentYear);
    if endYear >= startYear then endYear - startYear else 0
  }

  /** Sum of the contributions, in match order. */
  function TotalYears(ms: seq<RangeMatch>, currentYear: int): nat
    requires forall k :: 0 <= k < |ms| ==> WellFormed(ms[k])
  {
    if ms == [] then 0
    else TotalYears(ms[..|ms| - 1], currentYear) + Contribution(ms[|ms| - 1], currentYear)
  }

  /** `calculateExperienceYears`, with the current year passed in. */
  method CalculateExperienceYears(text: string, currentYear: int) returns (years: int)
    ensures 0 <= years <= 30
    ensures Matches(text) == [] ==> years == 0
    ensures years == if TotalYears(Matches(text), currentYear) < 30 then TotalYears(Matches(text), currentYear) else 30
  {
    var matches := Matches(text);
    if |matches| == 0 {
      return 0;
    }
    var totalYears := 0;
    var i := 0;
    while i < |matches|
      invariant 0 <= i <= |matches|
      invariant totalYears == TotalYears(matches[..i], currentYear)
    {
      var m := matches[i];
      var startYear := DigitsValue(m.start);
      var endYear := EndYear(m, currentYear);
      if endYear >= startYear {
        totalYears := totalYears + (endYear - startYear);
      }
      assert matches[..i + 1][..i] == matches[..i];
      i := i + 1;
    }
    assert matches[..i] == matches;
    years := if totalYears < 30 then totalYears else 30;
  }

  lemma {:induction false} NoDigitsFrom(s: string, i: nat)
    requires i <= |s|
    requires forall k :: 0 <= k < |s| ==> !IsAsciiDigit(s[k])
    ensures MatchesFrom(s, i) == []
    decreases |s| - i
  {
    if i < |s| {
      if i + 4 <= |s| {
        assert !IsDigits(s[i..i + 4]) by { assert s[i..i + 4][0] == s[i]; }
      }
      NoDigitsFrom(s, i + 1);
    }
  }

  /** A text without ASCII digits mentions no year range. */
  lemma NoDigitsNoRanges(text: string)
    requires forall k :: 0 <= k < |text| ==> !IsAsciiDigit(text[k])
    ensures Matches(text) == []
  {
    NoDigitsFrom(text, 0);
  }

  /** A range that ends in 'present' or 'current' counts up to the current year. */
  lemma OngoingRangeCountsToNow(m: RangeMatch, currentYear: int)
    requires WellFormed(m) && (ToLower(m.end) == "present" || ToLower(m.end) == "current")
    ensures Contribution(m, currentYear) == if currentYear >= DigitsValue(m.start) then currentYear - DigitsValue(m.start) else 0
  {
    var lower := ToLower(m.end);
    assert StartsWith(lower, lower);
  }
}
