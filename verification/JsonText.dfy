/** JSON texts (sections 2 and 7 of RFC 8259) as concrete syntax trees: every whitespace choice and
    every spelling of a string is kept, so that printing covers all texts a model may emit. */
module JsonText {

  /** One element of a string literal: a raw character, a two-character escape, or \uXXXX. */
  datatype Piece = Raw(c: char) | Esc(c: char) | Hex(a: char, b: char, c: char, d: char)

  datatype Item = Item(before: string, value: Json, after: string)
  datatype Member = Member(before: string, key: seq<Piece>, colonBefore: string, colonAfter: string, value: Json, after: string)

  /** `Scalar` stands for the literal names and numbers; `pad` is the inside of an empty container. */
  datatype Json =
    | Scalar(text: string)
    | Str(body: seq<Piece>)
    | Arr(items: seq<Item>, pad: string)
    | Obj(members: seq<Member>, pad: string)

  predicate HexDigit(c: char) { '0' <= c <= '9' || 'a' <= c <= 'f' || 'A' <= c <= 'F' }

  predicate PieceOk(p: Piece) {
    match p
    case Raw(c) => c != '"' && c != '\\'
    case Esc(c) => c in "\"\\/bfnrt"
    case Hex(a, b, c, d) => HexDigit(a) && HexDigit(b) && HexDigit(c) && HexDigit(d)
  }

  predicate BodyOk(body: seq<Piece>) { forall i :: 0 <= i < |body| ==> PieceOk(body[i]) }

  /** Whitespace, numbers and literal names are free of quotes and brackets. */
  predicate Plain(s: string) { forall i :: 0 <= i < |s| ==> s[i] !in "\"[]{}" }

  predicate WellFormed(v: Json)
    decreases v
  {
    match v
    case Scalar(text) => Plain(text)
    case Str(body) => BodyOk(body)
    case Arr(items, pad) => Plain(pad) && ItemsOk(items)
    case Obj(members, pad) => Plain(pad) && MembersOk(members)
  }

  predicate ItemsOk(items: seq<Item>)
    decreases items
  {
    forall i :: 0 <= i < |items| ==> Plain(items[i].before) && WellFormed(items[i].value) && Plain(items[i].after)
  }

  predicate MembersOk(members: seq<Member>)
    decreases members
  {
    forall i :: 0 <= i < |members| ==>
      && Plain(members[i].before) && BodyOk(members[i].key) && Plain(members[i].colonBefore)
      && Plain(members[i].colonAfter) && WellFormed(members[i].value) && Plain(members[i].after)
  }

  function PrintPiece(p: Piece): string {
    match p
    case Raw(c) => [c]
    case Esc(c) => ['\\', c]
    case Hex(a, b, c, d) => ['\\', 'u', a, b, c, d]
  }

  function PrintBody(body: seq<Piece>): string {
    if body == [] then "" else PrintPiece(body[0]) + PrintBody(body[1..])
  }

  function PrintLiteral(body: seq<Piece>): string { "\"" + PrintBody(body) + "\"" }

  function Print(v: Json): string
    decreases v
  {
    match v
    case Scalar(text) => text
    case Str(body) => PrintLiteral(body)
    case Arr(items, pad) => "[" + pad + PrintItems(items) + "]"
    case Obj(members, pad) => "{" + pad + PrintMembers(members) + "}"
  }

  function PrintItems(items: seq<Item>): string
    decreases items
  {
    if items == [] then ""
    else
      items[0].before + Print(items[0].value) + items[0].after
      + (if |items| == 1 then "" else ",") + PrintItems(items[1..])
  }

  function PrintMembers(members: seq<Member>): string
    decreases members
  {
    if members == [] then ""
    else
      var m := members[0];
      m.before + PrintLiteral(m.key) + m.colonBefore + ":" + m.colonAfter + Print(m.value) + m.after
      + (if |members| == 1 then "" else ",") + PrintMembers(members[1..])
  }
}
