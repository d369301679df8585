/** The second parsing pass: bare control characters are escaped inside string literals and nowhere
    else (parsing.ts:102-116). The model follows the global replacement of the pattern
    "(?:[^"\\]|\\.)*" position by position. */
module JsonSanitizer {
  import opened Options
  import opened JsonText

  predicate Control(c: char) { c < ' ' }

  /** Length of the literal body at the start of `t`, closing quote included; None when it is never closed. */
  function LiteralEnd(t: string): (r: Option<nat>)
    ensures r.Some? ==> 0 < r.value <= |t|
    decreases |t|
  {
    if t == "" then None
    else if t[0] == '"' then Some(1)
    else if t[0] == '\\' then
      if |t| < 2 then None
      else var r := LiteralEnd(t[2..]); if r.None? then None else Some(r.value + 2)
    else var r := LiteralEnd(t[1..]); if r.None? then None else Some(r.value + 1)
  }

  function EscapeChar(c: char): string {
    if c == '\n' then "\\n"
    else if c == '\r' then "\\r"
    else if c == '\t' then "\\t"
    else if Control(c) then ""
    else [c]
  }

  function EscapeControls(s: string): string {
    if s == "" then "" else EscapeChar(s[0]) + EscapeControls(s[1..])
  }

  /** A text cut at the matches of the pattern: literals, and single characters outside them. */
  datatype Segment = Outside(c: char) | Literal(text: string)

  function TextOf(s: Segment): string {
    match s
    case Outside(c) => [c]
    case Literal(text) => text
  }

  /** What the leftmost match leaves at the head of the text: the literal starting there, or one
      character that no match starts at. */
  function FirstSegment(t: string): (s: Segment)
    requires t != ""
    ensures 0 < |TextOf(s)| <= |t| && TextOf(s) == t[..|TextOf(s)|]
  {
    if t[0] == '"' && LiteralEnd(t[1..]).Some? then Literal(t[..LiteralEnd(t[1..]).value + 1]) else Outside(t[0])
  }

  function Rest(t: string): string
    requires t != ""
  {
    t[|TextOf(FirstSegment(t))|..]
  }

  function Segments(t: string): seq<Segment>
    decreases |t|
  {
    if t == "" then [] else [FirstSegment(t)] + Segments(Rest(t))
  }

  function Join(segments: seq<Segment>): string {
    if segments == [] then "" else TextOf(segments[0]) + Join(segments[1..])
  }

  function SanitizeSegment(s: Segment): Segment {
    match s
    case Outside(c) => s
    case Literal(text) => Literal(EscapeControls(text))
  }

  function SanitizeAll(segments: seq<Segment>): seq<Segment> {
    seq(|segments|, i requires 0 <= i < |segments| => SanitizeSegment(segments[i]))
  }

  /** The pass itself: each match is replaced, every other character is copied. */
  function Sanitize(t: string): string
    decreases |t|
  {
    if t == "" then "" else TextOf(SanitizeSegment(FirstSegment(t))) + Sanitize(Rest(t))
  }

  // ---- Only literals are touched ----

  /** The shape of a match: a quote, then characters that are neither quote nor backslash or
      two-character escapes, then a quote. */
  predicate IsLiteralBody(s: string)
    decreases |s|
  {
    if s == "" then false
    else if s[0] == '"' then |s| == 1
    else if s[0] == '\\' then |s| >= 2 && IsLiteralBody(s[2..])
    else IsLiteralBody(s[1..])
  }

  lemma {:induction false} LiteralEndMatches(t: string)
    ensures LiteralEnd(t).Some? ==> IsLiteralBody(t[..LiteralEnd(t).value])
    ensures forall n: nat :: n <= |t| && IsLiteralBody(t[..n]) ==> LiteralEnd(t) == Some(n)
    decreases |t|
  {
    if t != "" && t[0] != '"' {
      var step := if t[0] == '\\' then 2 else 1;
      if step <= |t| {
        LiteralEndMatches(t[step..]);
        forall n: nat | step <= n <= |t| ensures t[..n][step..] == t[step..][..n - step] {}
      }
      forall n: nat | n <= |t| && IsLiteralBody(t[..n]) ensures LiteralEnd(t) == Some(n) {
        assert n >= step;
        assert t[..n][step..] == t[step..][..n - step];
      }
    } else if t != "" {
      forall n: nat | n <= |t| && IsLiteralBody(t[..n]) ensures n == 1 {
        assert t[..n][0] == '"';
      }
    }
  }

  ghost predicate SegmentOk(s: Segment) {
    s.Literal? ==> |s.text| >= 2 && s.text[0] == '"' && IsLiteralBody(s.text[1..])
  }

  /** The segments are those of the text, and the rewritten text is theirs rewritten. */
  ghost predicate RewritesSegments(t: string, segments: seq<Segment>, sanitized: string) {
    && Join(segments) == t && sanitized == Join(SanitizeAll(segments))
    && forall i :: 0 <= i < |segments| ==> SegmentOk(segments[i])
  }

  lemma RewritesCons(head: Segment, rest: string, segments: seq<Segment>, sanitized: string)
    requires SegmentOk(head) && RewritesSegments(rest, segments, sanitized)
    ensures RewritesSegments(TextOf(head) + rest, [head] + segments, TextOf(SanitizeSegment(head)) + sanitized)
  {
    SegmentsCons(head, segments);
  }

  lemma HeadAndRest(t: string)
    requires t != ""
    ensures t == TextOf(FirstSegment(t)) + Rest(t)
    ensures Segments(t) == [FirstSegment(t)] + Segments(Rest(t))
    ensures Sanitize(t) == TextOf(SanitizeSegment(FirstSegment(t))) + Sanitize(Rest(t))
  {
  }

  /** The pass rewrites the literals of the text and keeps every other character, structural
      whitespace included, in place. */
  lemma {:induction false} OnlyLiteralsAreTouched(t: string)
    ensures RewritesSegments(t, Segments(t), Sanitize(t))
    decreases |t|
  {
    if t == "" {
    } else {
      var head, rest := FirstSegment(t), Rest(t);
      OnlyLiteralsAreTouched(rest);
      FirstSegmentOk(t);
      HeadAndRest(t);
      RewritesCons(head, rest, Segments(rest), Sanitize(rest));
    }
  }

  lemma SegmentsCons(s: Segment, rest: seq<Segment>)
    ensures Join([s] + rest) == TextOf(s) + Join(rest)
    ensures Join(SanitizeAll([s] + rest)) == TextOf(SanitizeSegment(s)) + Join(SanitizeAll(rest))
  {
    assert ([s] + rest)[1..] == rest;
    var all := SanitizeAll([s] + rest);
    assert all == [SanitizeSegment(s)] + SanitizeAll(rest);
    assert all[1..] == SanitizeAll(rest);
  }

  lemma FirstSegmentOk(t: string)
    requires t != ""
    ensures SegmentOk(FirstSegment(t))
  {
    if FirstSegment(t).Literal? {
      var n := LiteralEnd(t[1..]).value;
      LiteralEndMatches(t[1..]);
      assert t[..n + 1][1..] == t[1..][..n];
    }
  }

  // ---- When the text is unchanged ----

  predicate ControlFree(s: string) { forall i :: 0 <= i < |s| ==> !Control(s[i]) }

  predicate LiteralsControlFree(t: string) {
    forall i :: 0 <= i < |Segments(t)| && Segments(t)[i].Literal? ==> ControlFree(Segments(t)[i].text)
  }

  function Controls(s: string): nat {
    if s == "" then 0 else (if Control(s[0]) then 1 else 0) + Controls(s[1..])
  }

  lemma {:induction false} ControlsAppend(a: string, b: string)
    ensures Controls(a + b) == Controls(a) + Controls(b)
  {
    if a == "" {
      assert a + b == b;
    } else {
      assert (a + b)[1..] == a[1..] + b;
      ControlsAppend(a[1..], b);
    }
  }

  lemma {:induction false} EscapeControlsFacts(s: string)
    ensures Controls(EscapeControls(s)) == 0
    ensures ControlFree(s) <==> Controls(s) == 0
    ensures ControlFree(s) ==> EscapeControls(s) == s
  {
    if s != "" {
      EscapeControlsFacts(s[1..]);
      ControlsAppend(EscapeChar(s[0]), EscapeControls(s[1..]));
      assert ControlFree(s) <==> !Control(s[0]) && ControlFree(s[1..]) by {
        assert s == [s[0]] + s[1..];
      }
    }
  }

  lemma HeadControls(t: string)
    requires t != ""
    ensures Controls(Sanitize(t)) == Controls(TextOf(SanitizeSegment(FirstSegment(t)))) + Controls(Sanitize(Rest(t)))
    ensures Controls(t) == Controls(TextOf(FirstSegment(t))) + Controls(Rest(t))
  {
    HeadAndRest(t);
    ControlsAppend(TextOf(SanitizeSegment(FirstSegment(t))), Sanitize(Rest(t)));
    ControlsAppend(TextOf(FirstSegment(t)), Rest(t));
  }

  lemma {:induction false} ControlsShrink(t: string)
    ensures if LiteralsControlFree(t) then Controls(Sanitize(t)) == Controls(t) else Controls(Sanitize(t)) < Controls(t)
    decreases |t|
  {
    if t != "" {
      ControlsShrink(Rest(t));
      HeadControls(t);
      EscapeControlsFacts(TextOf(FirstSegment(t)));
      SegmentsSplit(t, FirstSegment(t), Segments(Rest(t)));
    }
  }

  lemma CleanIsUnchanged(t: string)
    requires LiteralsControlFree(t)
    ensures Sanitize(t) == t
  {
    var segments := Segments(t);
    forall i | 0 <= i < |segments| ensures SanitizeSegment(segments[i]) == segments[i] {
      EscapeControlsFacts(TextOf(segments[i]));
    }
    assert SanitizeAll(segments) == segments;
    OnlyLiteralsAreTouched(t);
  }

  /** The pass is the identity exactly on the texts whose string literals hold no control character. */
  lemma UnchangedIff(t: string)
    ensures Sanitize(t) == t <==> LiteralsControlFree(t)
  {
    ControlsShrink(t);
    if LiteralsControlFree(t) {
      CleanIsUnchanged(t);
    }
  }

  lemma SegmentsSplit(t: string, s: Segment, rest: seq<Segment>)
    requires Segments(t) == [s] + rest
    ensures LiteralsControlFree(t) <==>
              (s.Literal? ==> ControlFree(s.text))
              && forall i :: 0 <= i < |rest| && rest[i].Literal? ==> ControlFree(rest[i].text)
  {
    var all := [s] + rest;
    assert all[0] == s;
    assert forall i :: 0 <= i < |rest| ==> all[i + 1] == rest[i];
  }

  // ---- Printed values ----

  /** How the pass spells one element of a string literal. */
  function EscapePiece(p: Piece): seq<Piece> {
    match p
    case Raw(c) =>
      if c == '\n' then [Esc('n')] else if c == '\r' then [Esc('r')] else if c == '\t' then [Esc('t')]
      else if Control(c) then [] else [p]
    case _ => [p]
  }

  function EscapeBody(body: seq<Piece>): seq<Piece> {
    if body == [] then [] else EscapePiece(body[0]) + EscapeBody(body[1..])
  }

  /** The same value with every raw control character of its strings escaped or dropped. */
  function Escaped(v: Json): Json
    decreases v
  {
    match v
    case Scalar(_) => v
    case Str(body) => Str(EscapeBody(body))
    case Arr(items, pad) => Arr(EscapedItems(items), pad)
    case Obj(members, pad) => Obj(EscapedMembers(members), pad)
  }

  function EscapedItems(items: seq<Item>): (r: seq<Item>)
    ensures |r| == |items|
    decreases items
  {
    if items == [] then []
    else [items[0].(value := Escaped(items[0].value))] + EscapedItems(items[1..])
  }

  function EscapedMembers(members: seq<Member>): (r: seq<Member>)
    ensures |r| == |members|
    decreases members
  {
    if members == [] then []
    else [members[0].(key := EscapeBody(members[0].key), value := Escaped(members[0].value))] + EscapedMembers(members[1..])
  }

  lemma {:induction false} PrintBodyAppend(a: seq<Piece>, b: seq<Piece>)
    ensures PrintBody(a + b) == PrintBody(a) + PrintBody(b)
  {
    if a == [] {
      assert a + b == b;
    } else {
      assert (a + b)[1..] == a[1..] + b;
      PrintBodyAppend(a[1..], b);
    }
  }

  lemma {:induction false} EscapeControlsAppend(a: string, b: string)
    ensures EscapeControls(a + b) == EscapeControls(a) + EscapeControls(b)
  {
    if a == "" {
      assert a + b == b;
    } else {
      assert (a + b)[1..] == a[1..] + b;
      EscapeControlsAppend(a[1..], b);
    }
  }

  lemma PieceEscapes(p: Piece)
    requires PieceOk(p)
    ensures EscapeControls(PrintPiece(p)) == PrintBody(EscapePiece(p))
  {
    match p
    case Raw(c) =>
      assert EscapeControls([c]) == EscapeChar(c);
      assert PrintBody([Esc('n')]) == "\\n" && PrintBody([Esc('r')]) == "\\r" && PrintBody([Esc('t')]) == "\\t";
      assert PrintBody([p]) == [c];
    case Esc(c) =>
      EscapeControlsFacts(['\\', c]);
      assert PrintBody([p]) == ['\\', c];
    case Hex(a, b, c, d) =>
      EscapeControlsFacts(['\\', 'u', a, b, c, d]);
      assert PrintBody([p]) == PrintPiece(p);
  }

  lemma {:induction false} BodyEscapes(body: seq<Piece>)
    requires BodyOk(body)
    ensures EscapeControls(PrintBody(body)) == PrintBody(EscapeBody(body))
  {
    if body != [] {
      PieceEscapes(body[0]);
      BodyEscapes(body[1..]);
      EscapeControlsAppend(PrintPiece(body[0]), PrintBody(body[1..]));
      PrintBodyAppend(EscapePiece(body[0]), EscapeBody(body[1..]));
    }
  }

  lemma SkipRaw(c: char, t: string)
    requires c != '"' && c != '\\'
    ensures LiteralEnd([c] + t) == if LiteralEnd(t).None? then None else Some(LiteralEnd(t).value + 1)
  {
    assert ([c] + t)[1..] == t;
  }

  lemma SkipEscape(c: char, t: string)
    ensures LiteralEnd(['\\', c] + t) == if LiteralEnd(t).None? then None else Some(LiteralEnd(t).value + 2)
  {
    assert (['\\', c] + t)[2..] == t;
  }

  lemma SkipPiece(p: Piece, t: string)
    requires PieceOk(p) && LiteralEnd(t).Some?
    ensures LiteralEnd(PrintPiece(p) + t) == Some(LiteralEnd(t).value + |PrintPiece(p)|)
  {
    match p
    case Raw(c) => SkipRaw(c, t);
    case Esc(c) => SkipEscape(c, t);
    case Hex(a, b, c, d) =>
      SkipRaw(d, t);
      SkipRaw(c, [d] + t);
      SkipRaw(b, [c] + ([d] + t));
      SkipRaw(a, [b] + ([c] + ([d] + t)));
      SkipEscape('u', [a] + ([b] + ([c] + ([d] + t))));
      assert PrintPiece(p) + t == ['\\', 'u'] + ([a] + ([b] + ([c] + ([d] + t))));
  }

  lemma {:induction false} BodyEnds(body: seq<Piece>, rest: string)
    requires BodyOk(body)
    ensures LiteralEnd(PrintBody(body) + "\"" + rest) == Some(|PrintBody(body)| + 1)
  {
    if body == [] {
      assert PrintBody(body) + "\"" + rest == "\"" + rest;
    } else {
      BodyEnds(body[1..], rest);
      SkipPiece(body[0], PrintBody(body[1..]) + "\"" + rest);
      assert PrintBody(body) + "\"" + rest == PrintPiece(body[0]) + (PrintBody(body[1..]) + "\"" + rest);
    }
  }

  /** Wherever `a` stands at the head of a text, `f` turns it into `b` and goes on behind it. */
  ghost predicate Rewrites(f: string -> string, a: string, b: string) {
    forall rest: string :: RewritesBefore(f, a, b, rest)
  }

  ghost predicate RewritesBefore(f: string -> string, a: string, b: string, rest: string) { f(a + rest) == b + f(rest) }

  lemma Compose(f: string -> string, a: string, b: string, c: string, d: string)
    requires Rewrites(f, a, b) && Rewrites(f, c, d)
    ensures Rewrites(f, a + c, b + d)
  {
    forall rest: string ensures RewritesBefore(f, a + c, b + d, rest) {
      assert RewritesBefore(f, a, b, c + rest) && RewritesBefore(f, c, d, rest);
      assert a + c + rest == a + (c + rest);
    }
  }

  /** `f` copies characters outside literals and rewrites whole literals. */
  ghost predicate RewritesTokens(f: string -> string) {
    && f("") == ""
    && (forall c :: c != '"' ==> Rewrites(f, [c], [c]))
    && (forall body :: BodyOk(body) ==> Rewrites(f, PrintLiteral(body), PrintLiteral(EscapeBody(body))))
  }

  lemma {:induction false} LiteralSanitizes(body: seq<Piece>)
    requires BodyOk(body)
    ensures Rewrites(Sanitize, PrintLiteral(body), PrintLiteral(EscapeBody(body)))
  {
    var literal := PrintLiteral(body);
    BodyEscapes(body);
    EscapeControlsAppend("\"", PrintBody(body));
    EscapeControlsAppend("\"" + PrintBody(body), "\"");
    assert EscapeControls("\"") == "\"";
    forall rest: string ensures RewritesBefore(Sanitize, literal, PrintLiteral(EscapeBody(body)), rest) {
      var t := literal + rest;
      BodyEnds(body, rest);
      assert t[1..] == PrintBody(body) + "\"" + rest;
      assert t[..|literal|] == literal && t[|literal|..] == rest;
    }
  }

  lemma CharSanitizes(c: char)
    requires c != '"'
    ensures Rewrites(Sanitize, [c], [c])
  {
    forall rest: string ensures RewritesBefore(Sanitize, [c], [c], rest) {
      assert ([c] + rest)[1..] == rest;
    }
  }

  lemma {:induction false} PlainSanitizes(f: string -> string, p: string)
    requires RewritesTokens(f) && Plain(p)
    ensures Rewrites(f, p, p)
  {
    if p == "" {
      forall rest: string ensures RewritesBefore(f, p, p, rest) {
        assert p + rest == rest;
      }
    } else {
      var head, tail := [p[0]], p[1..];
      PlainSanitizes(f, tail);
      Compose(f, head, head, tail, tail);
      assert head + tail == p;
    }
  }

  lemma ContainerSanitizes(f: string -> string, open: char, pad: string, a: string, b: string, close: char)
    requires RewritesTokens(f) && open != '"' && close != '"' && Plain(pad) && Rewrites(f, a, b)
    ensures Rewrites(f, [open] + pad + a + [close], [open] + pad + b + [close])
  {
    PlainSanitizes(f, pad);
    Compose(f, [open], [open], pad, pad);
    Compose(f, [open] + pad, [open] + pad, a, b);
    Compose(f, [open] + pad + a, [open] + pad + b, [close], [close]);
  }

  lemma {:induction false} ValueSanitizes(f: string -> string, v: Json)
    requires RewritesTokens(f) && WellFormed(v)
    ensures Rewrites(f, Print(v), Print(Escaped(v)))
    decreases v
  {
    match v
    case Scalar(text) => PlainSanitizes(f, text);
    case Str(body) => LiteralSanitizes(body);
    case Arr(items, pad) =>
      ItemsSanitize(f, items);
      ContainerSanitizes(f, '[', pad, PrintItems(items), PrintItems(EscapedItems(items)), ']');
    case Obj(members, pad) =>
      MembersSanitize(f, members);
      ContainerSanitizes(f, '{', pad, PrintMembers(members), PrintMembers(EscapedMembers(members)), '}');
  }

  lemma PrintEscapedItems(items: seq<Item>)
    requires items != []
    ensures PrintItems(EscapedItems(items)) ==
      items[0].before + Print(Escaped(items[0].value)) + items[0].after
      + (if |items| == 1 then "" else ",") + PrintItems(EscapedItems(items[1..]))
  {
    var all := EscapedItems(items);
    assert all[1..] == EscapedItems(items[1..]);
  }

  lemma PrintEscapedMembers(members: seq<Member>)
    requires members != []
    ensures PrintMembers(EscapedMembers(members)) == (var m := members[0];
      m.before + PrintLiteral(EscapeBody(m.key)) + m.colonBefore + ":" + m.colonAfter + Print(Escaped(m.value)) + m.after
      + (if |members| == 1 then "" else ",") + PrintMembers(EscapedMembers(members[1..])))
  {
    var all := EscapedMembers(members);
    assert all[1..] == EscapedMembers(members[1..]);
  }

  lemma {:induction false} ItemsSanitize(f: string -> string, items: seq<Item>)
    requires RewritesTokens(f) && ItemsOk(items)
    ensures Rewrites(f, PrintItems(items), PrintItems(EscapedItems(items)))
    decreases items
  {
    if items == [] {
      PlainSanitizes(f, "");
    } else {
      var it := items[0];
      var separator := if |items| == 1 then "" else ",";
      var x := it.before + Print(it.value) + it.after + separator + PrintItems(items[1..]);
      var y := it.before + Print(Escaped(it.value)) + it.after + separator + PrintItems(EscapedItems(items[1..]));
      assert Rewrites(f, x, y) by {
        PlainSanitizes(f, it.before);
        ValueSanitizes(f, it.value);
        ItemsSanitize(f, items[1..]);
        ElementSanitizes(f, it.before, it.before, Print(it.value), Print(Escaped(it.value)), it.after,
                         separator, PrintItems(items[1..]), PrintItems(EscapedItems(items[1..])));
      }
      assert PrintItems(items) == x;
      assert PrintItems(EscapedItems(items)) == y by {
        PrintEscapedItems(items);
      }
    }
  }

  /** One element of a container, its separator, and the elements after it. */
  lemma ElementSanitizes(f: string -> string, a: string, b: string, v: string, w: string, after: string, separator: string,
                         more: string, next: string)
    requires RewritesTokens(f) && Rewrites(f, a, b) && Rewrites(f, v, w) && Rewrites(f, more, next)
    requires Plain(after) && Plain(separator)
    ensures Rewrites(f, a + v + after + separator + more, b + w + after + separator + next)
  {
    PlainSanitizes(f, after);
    PlainSanitizes(f, separator);
    Compose(f, a, b, v, w);
    Compose(f, a + v, b + w, after, after);
    Compose(f, a + v + after, b + w + after, separator, separator);
    Compose(f, a + v + after + separator, b + w + after + separator, more, next);
  }

  lemma MemberHeadSanitizes(f: string -> string, m: Member)
    requires RewritesTokens(f) && Plain(m.before) && BodyOk(m.key) && Plain(m.colonBefore) && Plain(m.colonAfter)
    ensures Rewrites(f, m.before + PrintLiteral(m.key) + m.colonBefore + ":" + m.colonAfter,
                        m.before + PrintLiteral(EscapeBody(m.key)) + m.colonBefore + ":" + m.colonAfter)
  {
    var k, l := PrintLiteral(m.key), PrintLiteral(EscapeBody(m.key));
    PlainSanitizes(f, m.before);
    LiteralSanitizes(m.key);
    PlainSanitizes(f, m.colonBefore);
    PlainSanitizes(f, ":");
    PlainSanitizes(f, m.colonAfter);
    Compose(f, m.before, m.before, k, l);
    Compose(f, m.before + k, m.before + l, m.colonBefore, m.colonBefore);
    Compose(f, m.before + k + m.colonBefore, m.before + l + m.colonBefore, ":", ":");
    Compose(f, m.before + k + m.colonBefore + ":", m.before + l + m.colonBefore + ":", m.colonAfter, m.colonAfter);
  }

  lemma {:induction false} MembersSanitize(f: string -> string, members: seq<Member>)
    requires RewritesTokens(f) && MembersOk(members)
    ensures Rewrites(f, PrintMembers(members), PrintMembers(EscapedMembers(members)))
    decreases members
  {
    if members == [] {
      PlainSanitizes(f, "");
    } else {
      var m := members[0];
      var separator := if |members| == 1 then "" else ",";
      var h := m.before + PrintLiteral(m.key) + m.colonBefore + ":" + m.colonAfter;
      var g := m.before + PrintLiteral(EscapeBody(m.key)) + m.colonBefore + ":" + m.colonAfter;
      var x := h + Print(m.value) + m.after + separator + PrintMembers(members[1..]);
      var y := g + Print(Escaped(m.value)) + m.after + separator + PrintMembers(EscapedMembers(members[1..]));
      assert Rewrites(f, x, y) by {
        MemberHeadSanitizes(f, m);
        ValueSanitizes(f, m.value);
        MembersSanitize(f, members[1..]);
        ElementSanitizes(f, h, g, Print(m.value), Print(Escaped(m.value)), m.after,
                         separator, PrintMembers(members[1..]), PrintMembers(EscapedMembers(members[1..])));
      }
      assert PrintMembers(members) == x;
      assert PrintMembers(EscapedMembers(members)) == y by {
        PrintEscapedMembers(members);
      }
    }
  }

  lemma SanitizeRewritesTokens()
    ensures RewritesTokens(Sanitize)
  {
    forall c: char | c != '"' ensures Rewrites(Sanitize, [c], [c]) {
      CharSanitizes(c);
    }
    forall body | BodyOk(body) ensures Rewrites(Sanitize, PrintLiteral(body), PrintLiteral(EscapeBody(body))) {
      LiteralSanitizes(body);
    }
  }

  /** Sanitizing the raw print of a value gives exactly the print of the escaped value. */
  lemma SanitizerRoundTrip(v: Json)
    requires WellFormed(v)
    ensures Sanitize(Print(v)) == Print(Escaped(v))
  {
    SanitizeRewritesTokens();
    ValueSanitizes(Sanitize, v);
    assert RewritesBefore(Sanitize, Print(v), Print(Escaped(v)), "");
    assert Print(v) + "" == Print(v);
  }
}
