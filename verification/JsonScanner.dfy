/** The quote- and escape-aware scanner that cuts the first complete object or array out of a model
    response (parsing.ts:141-179). */
module JsonScanner {
  import opened Options
  import opened JsonText

  datatype Scan = Scan(depth: int, inString: bool, escaped: bool)

  const START := Scan(0, false, false)

  function Closing(opening: char): char { if opening == '{' then '}' else ']' }

  function Step(s: Scan, c: char, opening: char): Scan {
    if s.inString then
      if s.escaped then s.(escaped := false)
      else if c == '\\' then s.(escaped := true)
      else if c == '"' then s.(inString := false)
      else s
    else if c == '"' then s.(inString := true)
    else if c == opening then s.(depth := s.depth + 1)
    else if c == Closing(opening) then s.(depth := s.depth - 1)
    else s
  }

  function Run(s: Scan, text: string, opening: char): Scan
    decreases |text|
  {
    if text == "" then s else Run(Step(s, text[0], opening), text[1..], opening)
  }

  lemma {:induction false} RunAppend(s: Scan, a: string, b: string, opening: char)
    ensures Run(s, a + b, opening) == Run(Run(s, a, opening), b, opening)
    decreases |a|
  {
    if a == "" {
      assert a + b == b;
    } else {
      assert (a + b)[1..] == a[1..] + b;
      RunAppend(Step(s, a[0], opening), a[1..], b, opening);
    }
  }

  /** The quote-aware depth never drops below one after any part of `text`, read from `s`. */
  ghost predicate Stays(s: Scan, text: string, opening: char) {
    forall m :: 0 <= m <= |text| ==> Run(s, text[..m], opening).depth >= 1
  }

  /** A complete value: it starts with its opening bracket, and its quote-aware depth is zero at its
      end and nowhere in between. */
  ghost predicate Balanced(s: string) {
    && |s| >= 2 && (s[0] == '{' || s[0] == '[')
    && Run(START, s, s[0]).depth == 0
    && (forall m :: 0 < m < |s| ==> Run(START, s[..m], s[0]).depth >= 1)
  }

  predicate IsOpening(c: char) { c == '{' || c == '[' }

  ghost predicate FirstOpening(text: string, first: nat) {
    first < |text| && IsOpening(text[first]) && forall i :: 0 <= i < first ==> !IsOpening(text[i])
  }

  /** `r` is a balanced value starting at the first bracket of `text`; None means that there is no
      bracket, or that nothing starting at the first one is balanced. */
  ghost predicate IsFirstValue(text: string, r: Option<string>) {
    match r
    case Some(value) =>
      Balanced(value) && exists first: nat, end: nat :: Slices(text, first, end, value)
    case None =>
      forall first: nat, end: nat :: FirstOpening(text, first) && first <= end <= |text| ==> !Balanced(text[first..end])
  }

  ghost predicate Slices(text: string, first: nat, end: nat, value: string) {
    FirstOpening(text, first) && first <= end <= |text| && value == text[first..end]
  }

  method FindBalancedJsonValue(text: string) returns (r: Option<string>)
    ensures IsFirstValue(text, r)
  {
    var first := 0;
    while first < |text| && !IsOpening(text[first])
      invariant 0 <= first <= |text|
      invariant forall i :: 0 <= i < first ==> !IsOpening(text[i])
    {
      first := first + 1;
    }
    if first == |text| {
      return None;
    }
    var opening := text[first];
    var depth, inString, escaped := 0, false, false;
    var i := first;
    while i < |text|
      invariant first <= i <= |text|
      invariant Scan(depth, inString, escaped) == Run(START, text[first..i], opening)
      invariant forall m :: first < m <= i ==> Run(START, text[first..m], opening).depth >= 1
    {
      var c := text[i];
      RunOneMore(text, first, i, opening);
      if inString {
        if escaped {
          escaped := false;
        } else if c == '\\' {
          escaped := true;
        } else if c == '"' {
          inString := false;
        }
      } else if c == '"' {
        inString := true;
      } else if c == opening {
        depth := depth + 1;
      } else if c == Closing(opening) {
        depth := depth - 1;
        if depth == 0 {
          BalancedSlice(text, first, i + 1);
          assert Slices(text, first, i + 1, text[first..i + 1]);
          return Some(text[first..i + 1]);
        }
      }
      i := i + 1;
    }
    forall f: nat, end: nat | FirstOpening(text, f) && f <= end <= |text| ensures !Balanced(text[f..end]) {
      assert f == first;
      if first < end {
        assert Run(START, text[first..end], opening).depth >= 1;
      }
    }
    return None;
  }

  lemma RunOneMore(text: string, first: nat, i: nat, opening: char)
    requires first <= i < |text|
    ensures Run(START, text[first..i + 1], opening) == Step(Run(START, text[first..i], opening), text[i], opening)
  {
    assert text[first..i + 1] == text[first..i] + [text[i]];
    RunAppend(START, text[first..i], [text[i]], opening);
  }

  lemma BalancedSlice(text: string, first: nat, end: nat)
    requires first + 1 < end <= |text| && IsOpening(text[first])
    requires Run(START, text[first..end], text[first]).depth == 0
    requires forall m :: first < m < end ==> Run(START, text[first..m], text[first]).depth >= 1
    ensures Balanced(text[first..end])
  {
    var s := text[first..end];
    forall m | 0 < m < |s| ensures Run(START, s[..m], s[0]).depth >= 1 {
      assert s[..m] == text[first..first + m];
    }
  }

  lemma NoBalancedProperPrefix(b: string)
    requires Balanced(b)
    ensures forall n: nat :: n < |b| ==> !Balanced(b[..n])
  {
    forall n: nat | n < |b| ensures !Balanced(b[..n]) {
      if 0 < n {
        assert b[..n][0] == b[0];
        assert Run(START, b[..n], b[0]).depth >= 1;
      }
    }
  }

  /** Two balanced values at the same place are the same value. */
  lemma BalancedUnique(a: string, b: string, text: string)
    requires Balanced(a) && Balanced(b) && a <= text && b <= text
    ensures a == b
  {
    NoBalancedProperPrefix(a);
    NoBalancedProperPrefix(b);
    var n: nat := if |a| < |b| then |a| else |b|;
    assert a[..|a|] == a && b[..|b|] == b;
    assert a[..n] == text[..n] && b[..n] == text[..n];
  }

  // ---- Printed values are balanced ----

  lemma StaysAppend(s: Scan, a: string, b: string, opening: char)
    requires Stays(s, a, opening) && Stays(Run(s, a, opening), b, opening)
    ensures Stays(s, a + b, opening) && Run(s, a + b, opening) == Run(Run(s, a, opening), b, opening)
  {
    RunAppend(s, a, b, opening);
    forall m | 0 <= m <= |a + b| ensures Run(s, (a + b)[..m], opening).depth >= 1 {
      if m <= |a| {
        assert (a + b)[..m] == a[..m];
      } else {
        assert (a + b)[..m] == a + b[..m - |a|];
        RunAppend(s, a, b[..m - |a|], opening);
      }
    }
  }

  /** `text` is read from depth `d` outside strings without leaving that depth for good. */
  ghost predicate Neutral(d: int, text: string, opening: char) {
    Run(Scan(d, false, false), text, opening) == Scan(d, false, false) && Stays(Scan(d, false, false), text, opening)
  }

  lemma NeutralAppend(d: int, a: string, b: string, opening: char)
    requires Neutral(d, a, opening) && Neutral(d, b, opening)
    ensures Neutral(d, a + b, opening)
  {
    StaysAppend(Scan(d, false, false), a, b, opening);
  }

  lemma {:induction false} PlainNeutral(d: int, text: string, opening: char)
    requires d >= 1 && Plain(text) && IsOpening(opening)
    ensures Neutral(d, text, opening)
  {
    if text != "" {
      PlainNeutral(d, text[1..], opening);
      var s := Scan(d, false, false);
      assert Step(s, text[0], opening) == s;
      OneStep(s, text[0], opening);
      StaysAppend(s, [text[0]], text[1..], opening);
      assert text == [text[0]] + text[1..];
    }
  }

  lemma OneStep(s: Scan, c: char, opening: char)
    ensures Run(s, [c], opening) == Step(s, c, opening)
    ensures s.depth >= 1 && Step(s, c, opening).depth >= 1 ==> Stays(s, [c], opening)
  {
    assert Run(s, [c], opening) == Run(Step(s, c, opening), "", opening);
    if s.depth >= 1 && Step(s, c, opening).depth >= 1 {
      forall m | 0 <= m <= 1 ensures Run(s, [c][..m], opening).depth >= 1 {
        if m == 1 {
          assert [c][..1] == [c];
        }
      }
    }
  }

  /** The same inside a string literal. */
  ghost predicate Quoted(d: int, text: string, opening: char) {
    Run(Scan(d, true, false), text, opening) == Scan(d, true, false) && Stays(Scan(d, true, false), text, opening)
  }

  lemma QuotedAppend(d: int, a: string, b: string, opening: char)
    requires Quoted(d, a, opening) && Quoted(d, b, opening)
    ensures Quoted(d, a + b, opening)
  {
    StaysAppend(Scan(d, true, false), a, b, opening);
  }

  lemma RawQuoted(d: int, c: char, opening: char)
    requires d >= 1 && c != '"' && c != '\\'
    ensures Quoted(d, [c], opening)
  {
    OneStep(Scan(d, true, false), c, opening);
  }

  lemma EscapeQuoted(d: int, c: char, opening: char)
    requires d >= 1
    ensures Quoted(d, ['\\', c], opening)
  {
    OneStep(Scan(d, true, false), '\\', opening);
    OneStep(Scan(d, true, true), c, opening);
    StaysAppend(Scan(d, true, false), ['\\'], [c], opening);
    assert ['\\'] + [c] == ['\\', c];
  }

  lemma PieceQuoted(d: int, p: Piece, opening: char)
    requires d >= 1 && PieceOk(p)
    ensures Quoted(d, PrintPiece(p), opening)
  {
    match p
    case Raw(c) => RawQuoted(d, c, opening);
    case Esc(c) => EscapeQuoted(d, c, opening);
    case Hex(a, b, c, e) =>
      EscapeQuoted(d, 'u', opening);
      RawQuoted(d, a, opening);
      RawQuoted(d, b, opening);
      RawQuoted(d, c, opening);
      RawQuoted(d, e, opening);
      QuotedAppend(d, ['\\', 'u'], [a], opening);
      QuotedAppend(d, ['\\', 'u'] + [a], [b], opening);
      QuotedAppend(d, ['\\', 'u'] + [a] + [b], [c], opening);
      QuotedAppend(d, ['\\', 'u'] + [a] + [b] + [c], [e], opening);
      assert ['\\', 'u'] + [a] + [b] + [c] + [e] == PrintPiece(p);
  }

  lemma {:induction false} BodyQuoted(d: int, body: seq<Piece>, opening: char)
    requires d >= 1 && BodyOk(body)
    ensures Quoted(d, PrintBody(body), opening)
  {
    if body != [] {
      PieceQuoted(d, body[0], opening);
      BodyQuoted(d, body[1..], opening);
      QuotedAppend(d, PrintPiece(body[0]), PrintBody(body[1..]), opening);
    }
  }

  lemma LiteralNeutral(d: int, body: seq<Piece>, opening: char)
    requires d >= 1 && BodyOk(body) && IsOpening(opening)
    ensures Neutral(d, PrintLiteral(body), opening)
  {
    var s := Scan(d, false, false);
    OneStep(s, '"', opening);
    BodyQuoted(d, body, opening);
    StaysAppend(s, "\"", PrintBody(body), opening);
    OneStep(Scan(d, true, false), '"', opening);
    StaysAppend(s, "\"" + PrintBody(body), "\"", opening);
  }

  /** The brackets of a container around a neutral inside: neutral as a whole, and one deeper inside
      when they are the brackets being counted. */
  lemma BracketNeutral(d: int, open: char, inside: string, opening: char)
    requires d >= 1 && IsOpening(open) && IsOpening(opening)
    requires Neutral(d, inside, opening) && Neutral(d + 1, inside, opening)
    ensures Neutral(d, [open] + inside + [Closing(open)], opening)
  {
    var s := Scan(d, false, false);
    var t := Step(s, open, opening);
    OneStep(s, open, opening);
    StaysAppend(s, [open], inside, opening);
    OneStep(t, Closing(open), opening);
    StaysAppend(s, [open] + inside, [Closing(open)], opening);
  }

  lemma ContainerNeutral(d: int, open: char, pad: string, contents: string, opening: char)
    requires d >= 1 && IsOpening(open) && IsOpening(opening) && Plain(pad)
    requires Neutral(d, contents, opening) && Neutral(d + 1, contents, opening)
    ensures Neutral(d, [open] + pad + contents + [Closing(open)], opening)
  {
    PlainNeutral(d, pad, opening);
    PlainNeutral(d + 1, pad, opening);
    NeutralAppend(d, pad, contents, opening);
    NeutralAppend(d + 1, pad, contents, opening);
    BracketNeutral(d, open, pad + contents, opening);
    assert [open] + (pad + contents) + [Closing(open)] == [open] + pad + contents + [Closing(open)];
  }

  lemma {:induction false} PrintNeutral(d: int, v: Json, opening: char)
    requires d >= 1 && WellFormed(v) && IsOpening(opening)
    ensures Neutral(d, Print(v), opening)
    decreases v
  {
    match v
    case Scalar(text) => PlainNeutral(d, text, opening);
    case Str(body) => LiteralNeutral(d, body, opening);
    case Arr(items, pad) =>
      ItemsNeutral(d, items, opening);
      ItemsNeutral(d + 1, items, opening);
      ContainerNeutral(d, '[', pad, PrintItems(items), opening);
    case Obj(members, pad) =>
      MembersNeutral(d, members, opening);
      MembersNeutral(d + 1, members, opening);
      ContainerNeutral(d, '{', pad, PrintMembers(members), opening);
  }

  lemma SeparatorNeutral(d: int, more: bool, opening: char)
    requires d >= 1 && IsOpening(opening)
    ensures Neutral(d, if more then "," else "", opening)
  {
    PlainNeutral(d, if more then "," else "", opening);
  }

  lemma {:induction false} ItemsNeutral(d: int, items: seq<Item>, opening: char)
    requires d >= 1 && ItemsOk(items) && IsOpening(opening)
    ensures Neutral(d, PrintItems(items), opening)
    decreases items
  {
    if items == [] {
      PlainNeutral(d, "", opening);
    } else {
      var it := items[0];
      var separator := if |items| == 1 then "" else ",";
      PlainNeutral(d, it.before, opening);
      PrintNeutral(d, it.value, opening);
      PlainNeutral(d, it.after, opening);
      SeparatorNeutral(d, |items| != 1, opening);
      ItemsNeutral(d, items[1..], opening);
      NeutralAppend(d, it.before, Print(it.value), opening);
      NeutralAppend(d, it.before + Print(it.value), it.after, opening);
      NeutralAppend(d, it.before + Print(it.value) + it.after, separator, opening);
      NeutralAppend(d, it.before + Print(it.value) + it.after + separator, PrintItems(items[1..]), opening);
    }
  }

  lemma {:induction false} MembersNeutral(d: int, members: seq<Member>, opening: char)
    requires d >= 1 && MembersOk(members) && IsOpening(opening)
    ensures Neutral(d, PrintMembers(members), opening)
    decreases members
  {
    if members == [] {
      PlainNeutral(d, "", opening);
    } else {
      var m := members[0];
      var separator := if |members| == 1 then "" else ",";
      var head := m.before + PrintLiteral(m.key) + m.colonBefore + ":" + m.colonAfter;
      MemberHeadNeutral(d, m, opening);
      PrintNeutral(d, m.value, opening);
      PlainNeutral(d, m.after, opening);
      SeparatorNeutral(d, |members| != 1, opening);
      MembersNeutral(d, members[1..], opening);
      NeutralAppend(d, head, Print(m.value), opening);
      NeutralAppend(d, head + Print(m.value), m.after, opening);
      NeutralAppend(d, head + Print(m.value) + m.after, separator, opening);
      NeutralAppend(d, head + Print(m.value) + m.after + separator, PrintMembers(members[1..]), opening);
    }
  }

  lemma MemberHeadNeutral(d: int, m: Member, opening: char)
    requires d >= 1 && IsOpening(opening)
    requires Plain(m.before) && BodyOk(m.key) && Plain(m.colonBefore) && Plain(m.colonAfter)
    ensures Neutral(d, m.before + PrintLiteral(m.key) + m.colonBefore + ":" + m.colonAfter, opening)
  {
    PlainNeutral(d, m.before, opening);
    LiteralNeutral(d, m.key, opening);
    PlainNeutral(d, m.colonBefore, opening);
    PlainNeutral(d, ":", opening);
    PlainNeutral(d, m.colonAfter, opening);
    NeutralAppend(d, m.before, PrintLiteral(m.key), opening);
    NeutralAppend(d, m.before + PrintLiteral(m.key), m.colonBefore, opening);
    NeutralAppend(d, m.before + PrintLiteral(m.key) + m.colonBefore, ":", opening);
    NeutralAppend(d, m.before + PrintLiteral(m.key) + m.colonBefore + ":", m.colonAfter, opening);
  }

  /** Every printed object or array is balanced, whatever brackets and quotes its strings hold. */
  lemma PrintIsBalanced(v: Json)
    requires WellFormed(v) && (v.Arr? || v.Obj?)
    ensures Balanced(Print(v))
  {
    var open := if v.Arr? then '[' else '{';
    var inside := if v.Arr? then v.pad + PrintItems(v.items) else v.pad + PrintMembers(v.members);
    PlainNeutral(1, v.pad, open);
    if v.Arr? {
      ItemsNeutral(1, v.items, open);
      NeutralAppend(1, v.pad, PrintItems(v.items), open);
    } else {
      MembersNeutral(1, v.members, open);
      NeutralAppend(1, v.pad, PrintMembers(v.members), open);
    }
    var text := [open] + inside + [Closing(open)];
    assert text == Print(v);
    EnclosedIsBalanced(open, inside);
  }

  lemma EnclosedIsBalanced(open: char, inside: string)
    requires IsOpening(open) && Neutral(1, inside, open)
    ensures Balanced([open] + inside + [Closing(open)])
  {
    var body := [open] + inside;
    var text := body + [Closing(open)];
    RunAppend(START, [open], inside, open);
    OneStep(START, open, open);
    RunAppend(START, body, [Closing(open)], open);
    OneStep(Scan(1, false, false), Closing(open), open);
    forall m | 0 < m < |text| ensures Run(START, text[..m], open).depth >= 1 {
      assert text[..m] == [open] + inside[..m - 1];
      RunAppend(START, [open], inside[..m - 1], open);
    }
  }

  /** Recovery of the first value: whatever precedes (without brackets) and follows it, the scanner
      returns exactly the printed value. */
  lemma ScannerRoundTrip(before: string, v: Json, after: string, r: Option<string>)
    requires WellFormed(v) && (v.Arr? || v.Obj?)
    requires forall i :: 0 <= i < |before| ==> !IsOpening(before[i])
    requires IsFirstValue(before + Print(v) + after, r)
    ensures r == Some(Print(v))
  {
    var text := before + Print(v) + after;
    PrintIsBalanced(v);
    assert FirstOpening(text, |before|);
    assert text[|before|..|before| + |Print(v)|] == Print(v);
    assert r.Some?;
    var first: nat, end: nat :| Slices(text, first, end, r.value);
    assert first == |before|;
    var rest := text[first..];
    assert r.value == rest[..end - first] && Print(v) == rest[..|Print(v)|];
    BalancedUnique(r.value, Print(v), rest);
  }
}
