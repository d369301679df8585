/** Section-aware compaction of one context field (context-compressor.ts:28-117). */
module TextCompaction {
  import opened Options
  import opened Strings

  // ---- String operations of the source ----

  /** First position at or after `i` where `p` occurs. */
  function IndexFrom(s: string, p: string, i: nat): (r: Option<nat>)
    requires i <= |s|
    ensures r.Some? ==> i <= r.value && HasAt(s, r.value, p)
    ensures r.Some? ==> forall k :: i <= k < r.value ==> !HasAt(s, k, p)
    ensures r.None? ==> forall k :: i <= k <= |s| ==> !HasAt(s, k, p)
    decreases |s| - i
  {
    if HasAt(s, i, p) then Some(i) else if i == |s| then None else IndexFrom(s, p, i + 1)
  }

  /** One past the last newline, or 0 when there is none. */
  function AfterLastNewline(s: string): (r: nat)
    ensures r <= |s| && (r > 0 ==> s[r - 1] == '\n') && forall k :: r <= k < |s| ==> s[k] != '\n'
  {
    if s == "" then 0 else if s[|s| - 1] == '\n' then |s| else AfterLastNewline(s[..|s| - 1])
  }

  function SplitLines(s: string): seq<string> { Split(s, '\n') }
  function JoinLines(lines: seq<string>): string { Join(lines, '\n') }

  /** A global replacement by the empty string: `width(s, i)` is the length of the match at `i`, 0 for none. */
  function Remove(s: string, i: nat, width: (string, nat) -> nat): (r: string)
    requires i <= |s|
    ensures |r| <= |s| - i
    ensures forall k :: 0 <= k < |r| ==> r[k] in s
    decreases |s| - i
  {
    if i == |s| then ""
    else if 0 < width(s, i) <= |s| - i then Remove(s, i + width(s, i), width)
    else [s[i]] + Remove(s, i + 1, width)
  }

  /** " — " and everything up to the end of the line. */
  function DashWidth(s: string, i: nat): nat {
    if HasAt(s, i, " \U{2014} ") then CharFrom(s, '\n', i + 3) - i else 0
  }

  function Digits(s: string, i: nat): (r: nat)
    requires i <= |s|
    ensures r <= |s| - i
    decreases |s| - i
  {
    if i < |s| && '0' <= s[i] <= '9' then 1 + Digits(s, i + 1) else 0
  }

  /** " [n%]" */
  function PercentWidth(s: string, i: nat): nat {
    if !HasAt(s, i, " [") then 0
    else
      var d := Digits(s, i + 2);
      if d > 0 && HasAt(s, i + 2 + d, "%]") then d + 4 else 0
  }

  function HeuristicWidth(s: string, i: nat): nat {
    if HasAt(s, i, " [heuristic]") then |" [heuristic]"| else 0
  }

  function BarEnd(s: string, i: nat): (r: nat)
    requires i <= |s|
    ensures i <= r <= |s|
    decreases |s| - i
  {
    if i == |s| || s[i] == '|' then i else BarEnd(s, i + 1)
  }

  /** " | runs:" or " | last run:" and everything up to the next bar. */
  function RunsWidth(s: string, i: nat): nat {
    if HasAt(s, i, " | runs:") then BarEnd(s, i + |" | runs:"|) - i
    else if HasAt(s, i, " | last run:") then BarEnd(s, i + |" | last run:"|) - i
    else 0
  }

  function DropDashes(s: string): (r: string) ensures |r| <= |s| { Remove(s, 0, (t, i) => DashWidth(t, i)) }
  function DropPercents(s: string): (r: string)
    ensures |r| <= |s| && forall k :: 0 <= k < |r| ==> r[k] in s
  { Remove(s, 0, (t, i) => PercentWidth(t, i)) }
  function DropHeuristics(s: string): (r: string)
    ensures |r| <= |s| && forall k :: 0 <= k < |r| ==> r[k] in s
  { Remove(s, 0, (t, i) => HeuristicWidth(t, i)) }
  function DropRuns(s: string): (r: string) ensures |r| <= |s| { Remove(s, 0, (t, i) => RunsWidth(t, i)) }

  // ---- Trimming at a boundary ----

  const ELLIPSIS := "\U{2026}"
  const MARKER := "\n\U{2026}[trimmed \U{2014} context too large]"

  /** The fractions of the source as whole hundredths. */
  function Percent(n: nat, hundredths: nat): nat { n * hundredths / 100 }

  function Clip(s: string, n: int): (r: string)
    ensures n >= 0 ==> |r| <= n
    ensures r <= s
  {
    if n < 0 then "" else if |s| > n then s[..n] else s
  }

  /** How much of the text is kept in front of the marker: up to the last newline of the room when
      that lies in its second half, else all of the room. */
  function KeptLength(content: string, room: nat): (n: nat)
    ensures n <= room && n <= |content|
  {
    var candidate := Clip(content, room);
    var after := AfterLastNewline(candidate);
    if after - 1 > Percent(room, 55) then after - 1 else |candidate|
  }

  function TrimAtBoundary(content: string, maxChars: int): string {
    if |content| <= maxChars then content
    else if maxChars <= 1 then Clip(ELLIPSIS, maxChars)
    else
      var room := if maxChars - |MARKER| < 1 then 1 else maxChars - |MARKER|;
      Clip(content[..KeptLength(content, room)] + MARKER, maxChars)
  }

  /** The budget is never exceeded; text that fits is kept; otherwise, as soon as the marker has
      room, a prefix of the text followed by the marker remains. */
  lemma TrimFacts(content: string, maxChars: int)
    ensures maxChars >= 0 ==> |TrimAtBoundary(content, maxChars)| <= maxChars
    ensures |content| <= maxChars ==> TrimAtBoundary(content, maxChars) == content
    ensures |MARKER| < maxChars < |content| ==>
      exists n :: 0 <= n <= maxChars - |MARKER| && TrimAtBoundary(content, maxChars) == content[..n] + MARKER
  {
    if |MARKER| < maxChars < |content| {
      TrimKeepsPrefix(content, maxChars);
    }
  }

  lemma TrimKeepsPrefix(content: string, maxChars: int)
    requires |MARKER| < maxChars < |content|
    ensures exists n :: 0 <= n <= maxChars - |MARKER| && TrimAtBoundary(content, maxChars) == content[..n] + MARKER
  {
    var n := KeptLength(content, maxChars - |MARKER|);
    assert TrimAtBoundary(content, maxChars) == content[..n] + MARKER;
  }

  // ---- Workflows ----

  function MapLines(lines: seq<string>, f: string -> string): (r: seq<string>)
    ensures |r| == |lines| && forall i :: 0 <= i < |r| ==> r[i] == f(lines[i])
  {
    seq(|lines|, i requires 0 <= i < |lines| => f(lines[i]))
  }

  function CompactWorkflowSummary(content: string, maxChars: int): string {
    if |content| <= maxChars then content
    else TrimAtBoundary(JoinLines(MapLines(SplitLines(content), s => DropRuns(s))), maxChars)
  }

  // ---- Graph summary ----

  const ANNOTATION := "Graph index from scan revision: "
  const RELATIONSHIPS := "\nRelationships "

  predicate LineStart(s: string, i: nat) {
    i <= |s| && (i == 0 || s[i - 1] in "\n\r\U{2028}\U{2029}")
  }

  function AnnotationFrom(s: string, i: nat): (r: Option<nat>)
    requires i <= |s|
    ensures r.Some? ==> LineStart(s, r.value) && HasAt(s, r.value, ANNOTATION)
    decreases |s| - i
  {
    if LineStart(s, i) && HasAt(s, i, ANNOTATION) then Some(i)
    else if i == |s| then None else AnnotationFrom(s, i + 1)
  }

  /** The annotation line without its newline, "" when there is none. */
  function Annotation(s: string): string {
    var at := AnnotationFrom(s, 0);
    if at.None? then "" else s[at.value..CharFrom(s, '\n', at.value)]
  }

  function WithoutAnnotation(s: string): (r: string)
    ensures |r| <= |s|
  {
    var at := AnnotationFrom(s, 0);
    if at.None? then s
    else
      var end := CharFrom(s, '\n', at.value);
      s[..at.value] + s[if end < |s| then end + 1 else end..]
  }

  function BodyBudget(content: string, maxChars: nat): (r: nat)
    ensures r <= maxChars
  {
    var cost := if Annotation(content) == "" then 0 else |Annotation(content)| + 1;
    if maxChars < cost then 0 else maxChars - cost
  }

  function WithAnnotation(annotation: string, body: string, maxChars: nat): string {
    if annotation == "" then body
    else if body == "" then Clip(annotation, maxChars)
    else annotation + "\n" + body
  }

  function CompactRelationLine(line: string): (r: string)
    ensures '\n' !in line ==> '\n' !in r
  {
    var a := DropPercents(line);
    assert forall k :: 0 <= k < |a| ==> a[k] in line;
    DropHeuristics(a)
  }

  /** The part before the relationship block, and the compacted lines of the block. */
  function Before(content: string, at: nat): string
    requires at <= |WithoutAnnotation(content)|
  {
    DropPercents(DropDashes(WithoutAnnotation(content)[..at]))
  }

  function BlockLines(content: string, at: nat): seq<string>
    requires at <= |WithoutAnnotation(content)|
  {
    MapLines(SplitLines(WithoutAnnotation(content)[at..]), s => CompactRelationLine(s))
  }

  /** How many whole lines fit: none is empty, each costs its length and a newline. */
  function KeptCount(lines: seq<string>, budget: int): (n: nat)
    ensures n <= |lines|
  {
    if lines == [] || lines[0] == "" || |lines[0]| + 1 > budget then 0
    else 1 + KeptCount(lines[1..], budget - |lines[0]| - 1)
  }

  function Cost(lines: seq<string>): nat {
    if lines == [] then 0 else |lines[0]| + 1 + Cost(lines[1..])
  }

  lemma {:induction false} CostSnoc(lines: seq<string>, line: string)
    ensures Cost(lines + [line]) == Cost(lines) + |line| + 1
  {
    if lines == [] {
      assert [line][1..] == [];
    } else {
      assert (lines + [line])[1..] == lines[1..] + [line];
      CostSnoc(lines[1..], line);
    }
  }

  /** The kept lines are non-empty, fit, and are as many as possible. */
  lemma {:induction false} KeptFacts(lines: seq<string>, budget: int)
    ensures var n := KeptCount(lines, budget);
      && (budget >= 0 ==> Cost(lines[..n]) <= budget)
      && (forall i :: 0 <= i < n ==> lines[i] != "")
      && (n < |lines| && lines[n] != "" ==> Cost(lines[..n]) + |lines[n]| + 1 > budget)
  {
    if lines != [] && lines[0] != "" && |lines[0]| + 1 <= budget {
      var rest := lines[1..];
      var m := KeptCount(rest, budget - |lines[0]| - 1);
      KeptFacts(rest, budget - |lines[0]| - 1);
      assert lines[..m + 1][1..] == rest[..m];
      assert forall i :: 0 <= i < m ==> lines[i + 1] == rest[i];
    }
  }

  /** The accumulation loop keeps exactly `KeptCount` lines. */
  method KeepLines(lines: seq<string>, budget: nat) returns (kept: seq<string>)
    ensures kept == lines[..KeptCount(lines, budget)]
  {
    kept := [];
    var used := 0;
    var i := 0;
    while i < |lines|
      invariant 0 <= i <= |lines| && kept == lines[..i] && used == Cost(kept) <= budget
      invariant KeptCount(lines, budget) == i + KeptCount(lines[i..], budget - used)
    {
      var line := lines[i];
      assert lines[i..][0] == line && lines[i..][1..] == lines[i + 1..];
      if line == "" || used + |line| + 1 > budget {
        break;
      }
      CostSnoc(kept, line);
      kept := kept + [line];
      used := used + |line| + 1;
      i := i + 1;
      assert lines[..i] == lines[..i - 1] + [line];
    }
  }

  function Topology(prefix: string, heading: string, kept: seq<string>): string {
    prefix + "\n" + heading + (if kept == [] then "" else "\n" + JoinLines(kept))
  }

  /** The relationship block after its markers are dropped line by line. */
  function CompactBlock(content: string, at: nat): string
    requires at <= |WithoutAnnotation(content)|
  {
    JoinLines(BlockLines(content, at))
  }

  function Heading(content: string, at: nat): string
    requires at <= |WithoutAnnotation(content)|
  {
    var compact := CompactBlock(content, at);
    compact[..CharFrom(compact, '\n', 0)]
  }

  function RelationLines(content: string, at: nat): seq<string>
    requires at <= |WithoutAnnotation(content)|
  {
    var compact := CompactBlock(content, at);
    var end := CharFrom(compact, '\n', 0);
    if end < |compact| then SplitLines(compact[end + 1..]) else []
  }

  function Prefix(content: string, maxChars: nat, at: nat): string
    requires at <= |WithoutAnnotation(content)|
  {
    var share := Percent(BodyBudget(content, maxChars), 35);
    TrimAtBoundary(Before(content, at), if share < 1 then 1 else share)
  }

  /** What is left for relationship lines. */
  function Remaining(content: string, maxChars: nat, at: nat): nat
    requires at <= |WithoutAnnotation(content)|
  {
    var left := BodyBudget(content, maxChars) - |Prefix(content, maxChars, at)| - |Heading(content, at)| - 2;
    if left < 0 then 0 else left
  }

  /** The summary as a function of its kept lines. */
  function TopologySummary(content: string, maxChars: nat, at: nat, kept: seq<string>): string
    requires at <= |WithoutAnnotation(content)|
  {
    var topology := Topology(Prefix(content, maxChars, at), Heading(content, at), kept);
    var whole := WithAnnotation(Annotation(content), topology, maxChars);
    if |whole| <= maxChars then whole
    else WithAnnotation(Annotation(content), TrimAtBoundary(topology, BodyBudget(content, maxChars)), maxChars)
  }

  function CompactGraphSummary(content: string, maxChars: nat): string {
    if |content| <= maxChars then content
    else
      var body := WithoutAnnotation(content);
      var annotation := Annotation(content);
      var budget := BodyBudget(content, maxChars);
      var at := IndexFrom(body, RELATIONSHIPS, 0);
      if at.None? then WithAnnotation(annotation, TrimAtBoundary(DropDashes(body), budget), maxChars)
      else
        var combined := Before(content, at.value) + CompactBlock(content, at.value);
        if |combined| <= budget then WithAnnotation(annotation, combined, maxChars)
        else
          var lines := RelationLines(content, at.value);
          TopologySummary(content, maxChars, at.value, lines[..KeptCount(lines, Remaining(content, maxChars, at.value))])
  }

  method CompactGraph(content: string, maxChars: nat) returns (r: string)
    ensures r == CompactGraphSummary(content, maxChars)
  {
    if |content| <= maxChars {
      return content;
    }
    var body := WithoutAnnotation(content);
    var annotation := Annotation(content);
    var budget := BodyBudget(content, maxChars);
    var at := IndexFrom(body, RELATIONSHIPS, 0);
    if at.None? {
      return WithAnnotation(annotation, TrimAtBoundary(DropDashes(body), budget), maxChars);
    }
    var combined := Before(content, at.value) + CompactBlock(content, at.value);
    if |combined| <= budget {
      return WithAnnotation(annotation, combined, maxChars);
    }
    var kept := KeepLines(RelationLines(content, at.value), Remaining(content, maxChars, at.value));
    return TopologySummary(content, maxChars, at.value, kept);
  }

  // ---- Bounds ----

  lemma AnnotationFits(content: string, body: string, maxChars: nat)
    requires |body| <= BodyBudget(content, maxChars)
    ensures |WithAnnotation(Annotation(content), body, maxChars)| <= maxChars
  {
  }

  lemma GraphNeverExceeds(content: string, maxChars: nat)
    ensures |CompactGraphSummary(content, maxChars)| <= maxChars
  {
    if |content| > maxChars {
      var body := WithoutAnnotation(content);
      var budget := BodyBudget(content, maxChars);
      var at := IndexFrom(body, RELATIONSHIPS, 0);
      if at.None? {
        TrimFacts(DropDashes(body), budget);
        AnnotationFits(content, TrimAtBoundary(DropDashes(body), budget), maxChars);
      } else {
        var combined := Before(content, at.value) + CompactBlock(content, at.value);
        if |combined| <= budget {
          AnnotationFits(content, combined, maxChars);
        } else {
          var lines := RelationLines(content, at.value);
          TopologyNeverExceeds(content, maxChars, at.value, lines[..KeptCount(lines, Remaining(content, maxChars, at.value))]);
        }
      }
    }
  }

  lemma TopologyNeverExceeds(content: string, maxChars: nat, at: nat, kept: seq<string>)
    requires at <= |WithoutAnnotation(content)|
    ensures |TopologySummary(content, maxChars, at, kept)| <= maxChars
  {
    var topology := Topology(Prefix(content, maxChars, at), Heading(content, at), kept);
    TrimFacts(topology, BodyBudget(content, maxChars));
    AnnotationFits(content, TrimAtBoundary(topology, BodyBudget(content, maxChars)), maxChars);
  }

  lemma WorkflowNeverExceeds(content: string, maxChars: nat)
    ensures |CompactWorkflowSummary(content, maxChars)| <= maxChars
  {
    if |content| > maxChars {
      TrimFacts(JoinLines(MapLines(SplitLines(content), s => DropRuns(s))), maxChars);
    }
  }

  lemma {:induction false} JoinLength(lines: seq<string>)
    ensures |JoinLines(lines)| == if lines == [] then 0 else Cost(lines) - 1
  {
    if |lines| == 1 {
      assert Cost(lines[1..]) == 0;
    } else if lines != [] {
      JoinLength(lines[1..]);
    }
  }

  /** The heading is always empty: the block starts with the newline its pattern matches, so the
      relation lines are all the lines of the block after that newline. */
  lemma HeadingIsEmpty(content: string, at: nat)
    requires HasAt(WithoutAnnotation(content), at, RELATIONSHIPS)
    ensures Heading(content, at) == ""
    ensures RelationLines(content, at) == BlockLines(content, at)[1..]
  {
    var block := WithoutAnnotation(content)[at..];
    assert block[0] == '\n' by {
      assert WithoutAnnotation(content)[at..at + |RELATIONSHIPS|][0] == '\n';
    }
    var raw := SplitLines(block);
    assert CharFrom(block, '\n', 0) == 0;
    assert raw[0] == "" && raw[1..] == SplitLines(block[1..]);
    var lines := BlockLines(content, at);
    assert lines[0] == CompactRelationLine("");
    EmptyLine();
    var compact := JoinLines(lines);
    assert compact == "" + "\n" + JoinLines(lines[1..]);
    assert compact[0] == '\n' && compact[1..] == JoinLines(lines[1..]);
    SplitJoin(lines[1..], '\n');
  }

  lemma EmptyLine()
    ensures CompactRelationLine("") == ""
  {
  }

  /** The final character-level trim of the topology branch is taken exactly when nothing but the
      prefix's own first character fits: body budget 0, or 1 with a non-empty prefix. In every
      other case, so whenever the body budget is at least 2, the relationship lines kept are a
      whole-line prefix of the compacted block, as long as fits. */
  lemma WholeLinesAreKept(content: string, maxChars: nat, at: nat)
    requires HasAt(WithoutAnnotation(content), at, RELATIONSHIPS)
    ensures var budget := BodyBudget(content, maxChars);
      var lines := RelationLines(content, at);
      var kept := lines[..KeptCount(lines, Remaining(content, maxChars, at))];
      var whole := WithAnnotation(Annotation(content), Topology(Prefix(content, maxChars, at), Heading(content, at), kept), maxChars);
      && (|whole| > maxChars <==> budget == 0 || (budget == 1 && Prefix(content, maxChars, at) != ""))
      && (budget >= 2 ==> TopologySummary(content, maxChars, at, kept) == whole)
      && Cost(kept) <= Remaining(content, maxChars, at)
  {
    var budget := BodyBudget(content, maxChars);
    var lines := RelationLines(content, at);
    var n := KeptCount(lines, Remaining(content, maxChars, at));
    var kept := lines[..n];
    var prefix := Prefix(content, maxChars, at);
    var share := Percent(budget, 35);
    TrimFacts(Before(content, at), if share < 1 then 1 else share);
    KeptFacts(lines, Remaining(content, maxChars, at));
    JoinLength(kept);
    HeadingIsEmpty(content, at);
    assert |Topology(prefix, "", kept)| == |prefix| + 1 + Cost(kept);
  }
}
