/** What the scanner and the sanitizer recover together: a text that obeys section 7 of RFC 8259 and
    denotes the same value. */
module JsonRecovery {
  import opened Options
  import opened JsonText
  import opened JsonScanner
  import opened JsonSanitizer

  /** The value a text denotes; strings are sequences of character codes. */
  datatype Value = VScalar(text: string) | VStr(codes: seq<int>) | VArr(items: seq<Value>) | VObj(members: seq<(seq<int>, Value)>)

  function HexValue(c: char): int {
    if '0' <= c <= '9' then c as int - '0' as int
    else if 'a' <= c <= 'f' then c as int - 'a' as int + 10
    else c as int - 'A' as int + 10
  }

  function Code(p: Piece): int {
    match p
    case Raw(c) => c as int
    case Esc(c) =>
      if c == 'n' then 10 else if c == 'r' then 13 else if c == 't' then 9
      else if c == 'b' then 8 else if c == 'f' then 12 else c as int
    case Hex(a, b, c, d) => HexValue(a) * 4096 + HexValue(b) * 256 + HexValue(c) * 16 + HexValue(d)
  }

  function Codes(body: seq<Piece>): (r: seq<int>)
    ensures |r| == |body|
  {
    if body == [] then [] else [Code(body[0])] + Codes(body[1..])
  }

  function Meaning(v: Json): Value
    decreases v
  {
    match v
    case Scalar(text) => VScalar(text)
    case Str(body) => VStr(Codes(body))
    case Arr(items, _) => VArr(ItemsMeaning(items))
    case Obj(members, _) => VObj(MembersMeaning(members))
  }

  function ItemsMeaning(items: seq<Item>): seq<Value>
    decreases items
  {
    if items == [] then [] else [Meaning(items[0].value)] + ItemsMeaning(items[1..])
  }

  function MembersMeaning(members: seq<Member>): seq<(seq<int>, Value)>
    decreases members
  {
    if members == [] then [] else [(Codes(members[0].key), Meaning(members[0].value))] + MembersMeaning(members[1..])
  }

  // ---- Control characters in the strings of a value ----

  /** A raw control character that the pass drops instead of escaping. */
  predicate Dropped(p: Piece) { p.Raw? && Control(p.c) && p.c != '\n' && p.c != '\r' && p.c != '\t' }

  predicate BodyKept(body: seq<Piece>) { forall i :: 0 <= i < |body| ==> !Dropped(body[i]) }

  predicate BodyStrict(body: seq<Piece>) { forall i :: 0 <= i < |body| ==> !(body[i].Raw? && Control(body[i].c)) }

  /** Every string of the value satisfies `p`. */
  ghost predicate AllStrings(v: Json, p: seq<Piece> -> bool)
    decreases v
  {
    match v
    case Scalar(_) => true
    case Str(body) => p(body)
    case Arr(items, _) => ItemsAllStrings(items, p)
    case Obj(members, _) => MembersAllStrings(members, p)
  }

  ghost predicate ItemsAllStrings(items: seq<Item>, p: seq<Piece> -> bool)
    decreases items
  {
    items == [] || (AllStrings(items[0].value, p) && ItemsAllStrings(items[1..], p))
  }

  ghost predicate MembersAllStrings(members: seq<Member>, p: seq<Piece> -> bool)
    decreases members
  {
    members == [] || (p(members[0].key) && AllStrings(members[0].value, p) && MembersAllStrings(members[1..], p))
  }

  lemma {:induction false} EscapeBodyFacts(body: seq<Piece>)
    ensures BodyStrict(EscapeBody(body)) && |EscapeBody(body)| <= |body|
    ensures Codes(EscapeBody(body)) == Codes(body) <==> BodyKept(body)
    ensures !BodyKept(body) ==> |EscapeBody(body)| < |body|
  {
    if body != [] {
      var p, rest := body[0], body[1..];
      EscapeBodyFacts(rest);
      assert BodyKept(body) <==> !Dropped(p) && BodyKept(rest) by {
        assert body == [p] + rest;
      }
      if !Dropped(p) {
        assert |EscapePiece(p)| == 1 && Code(EscapePiece(p)[0]) == Code(p);
        assert EscapeBody(body)[1..] == EscapeBody(rest);
      } else {
        assert EscapeBody(body) == EscapeBody(rest);
      }
    }
  }

  /** Escaping always yields strict strings, and keeps the value exactly when no string holds a
      control character other than LF, CR and TAB. */
  lemma {:induction false} EscapedMeaning(v: Json)
    ensures AllStrings(Escaped(v), BodyStrict)
    ensures Meaning(Escaped(v)) == Meaning(v) <==> AllStrings(v, BodyKept)
    decreases v
  {
    match v
    case Scalar(_) =>
    case Str(body) => EscapeBodyFacts(body);
    case Arr(items, _) => EscapedItemsMeaning(items);
    case Obj(members, _) => EscapedMembersMeaning(members);
  }

  lemma {:induction false} EscapedItemsMeaning(items: seq<Item>)
    ensures ItemsAllStrings(EscapedItems(items), BodyStrict)
    ensures ItemsMeaning(EscapedItems(items)) == ItemsMeaning(items) <==> ItemsAllStrings(items, BodyKept)
    decreases items
  {
    if items != [] {
      EscapedMeaning(items[0].value);
      EscapedItemsMeaning(items[1..]);
      var all := EscapedItems(items);
      assert all[1..] == EscapedItems(items[1..]);
      ConsEqual(Meaning(all[0].value), ItemsMeaning(all[1..]), Meaning(items[0].value), ItemsMeaning(items[1..]));
    }
  }

  lemma {:induction false} EscapedMembersMeaning(members: seq<Member>)
    ensures MembersAllStrings(EscapedMembers(members), BodyStrict)
    ensures MembersMeaning(EscapedMembers(members)) == MembersMeaning(members) <==> MembersAllStrings(members, BodyKept)
    decreases members
  {
    if members != [] {
      EscapeBodyFacts(members[0].key);
      EscapedMeaning(members[0].value);
      EscapedMembersMeaning(members[1..]);
      var all := EscapedMembers(members);
      assert all[1..] == EscapedMembers(members[1..]);
      ConsEqual((Codes(all[0].key), Meaning(all[0].value)), MembersMeaning(all[1..]),
                (Codes(members[0].key), Meaning(members[0].value)), MembersMeaning(members[1..]));
    }
  }

  lemma ConsEqual<T>(a: T, s: seq<T>, b: T, t: seq<T>)
    ensures [a] + s == [b] + t <==> a == b && s == t
  {
    if [a] + s == [b] + t {
      assert ([a] + s)[0] == ([b] + t)[0];
      assert ([a] + s)[1..] == s && ([b] + t)[1..] == t;
    }
  }

  /** From a model response that wraps a printed object or array in prose, the scanner and the
      sanitizer together recover a text whose strings are free of control characters; it denotes
      the same value exactly when only LF, CR and TAB had to be escaped. */
  lemma RecoveryRoundTrip(before: string, v: Json, after: string, r: Option<string>)
    requires WellFormed(v) && (v.Arr? || v.Obj?)
    requires forall i :: 0 <= i < |before| ==> !IsOpening(before[i])
    requires IsFirstValue(before + Print(v) + after, r)
    ensures r.Some? && Sanitize(r.value) == Print(Escaped(v))
    ensures AllStrings(Escaped(v), BodyStrict)
    ensures Meaning(Escaped(v)) == Meaning(v) <==> AllStrings(v, BodyKept)
  {
    ScannerRoundTrip(before, v, after, r);
    SanitizerRoundTrip(v);
    EscapedMeaning(v);
  }
}
