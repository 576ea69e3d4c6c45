/**
 What the documentation of `derive_content_text` describes (api/documents.py:282-305): the texts of one
 block run together, and only blocks stand on lines of their own.  When does the code do that?
*/
module ContentBlocks {
  import opened ContentText

  /** What one child shows: the text of a text node, or the lines of a container. */
  datatype Piece = Piece(inline: bool, text: string)

  /** Neighbouring inline pieces run together. */
  function Merged(pieces: seq<Piece>): seq<string>
    decreases |pieces|
  {
    if pieces == [] then []
    else if |pieces| >= 2 && pieces[0].inline && pieces[1].inline
    then Merged([Piece(true, pieces[0].text + pieces[1].text)] + pieces[2..])
    else [pieces[0].text] + Merged(pieces[1..])
  }

  /** The projection as documented. */
  function BlockProject(node: Json): string
    decreases node, 1
  {
    match NodeChildren(node)
    case None => NodeText(node)
    case Some(children) => Join(Merged(Pieces(children)))
  }

  /** The pieces of the children that show anything. */
  function Pieces(children: seq<Json>): seq<Piece>
    decreases children, 0
  {
    if children == [] then []
    else Shown(NodeChildren(children[0]).None?, BlockProject(children[0])) + Pieces(children[1..])
  }

  function Shown(inline: bool, text: string): seq<Piece> {
    if text == "" then [] else [Piece(inline, text)]
  }

  /** How often an inline piece directly follows another. */
  function Neighbours(pieces: seq<Piece>): nat {
    if |pieces| < 2 then 0
    else (if pieces[0].inline && pieces[1].inline then 1 else 0) + Neighbours(pieces[1..])
  }

  /** Nowhere in the tree do two texts of one container stand next to each other. */
  predicate TextsStandAlone(node: Json)
    decreases node, 1
  {
    match NodeChildren(node)
    case None => true
    case Some(children) => Neighbours(Pieces(children)) == 0 && AllStandAlone(children)
  }

  predicate AllStandAlone(children: seq<Json>)
    decreases children, 0
  {
    children == [] || (TextsStandAlone(children[0]) && AllStandAlone(children[1..]))
  }

  // ----- lengths ---------------------------------------------------------------------------

  function Total(parts: seq<string>): nat {
    if parts == [] then 0 else |parts[0]| + Total(parts[1..])
  }

  function PieceTexts(pieces: seq<Piece>): seq<string> {
    if pieces == [] then [] else [pieces[0].text] + PieceTexts(pieces[1..])
  }

  lemma {:induction false} JoinLength(parts: seq<string>)
    requires parts != []
    ensures |Join(parts)| == Total(parts) + |parts| - 1
  {
    if |parts| > 1 {
      JoinLength(parts[1..]);
    }
  }

  predicate AllShow(pieces: seq<Piece>) {
    forall i :: 0 <= i < |pieces| ==> pieces[i].text != ""
  }

  /** Merging keeps the characters and drops one part for every neighbour. */
  lemma {:induction false} MergedLength(pieces: seq<Piece>)
    requires AllShow(pieces)
    ensures Total(Merged(pieces)) == Total(PieceTexts(pieces))
    ensures |Merged(pieces)| + Neighbours(pieces) == |pieces|
    ensures AllNonEmpty(Merged(pieces))
    ensures Neighbours(pieces) == 0 ==> Merged(pieces) == PieceTexts(pieces)
    decreases |pieces|
  {
    if |pieces| >= 2 && pieces[0].inline && pieces[1].inline {
      var one := Piece(true, pieces[0].text + pieces[1].text);
      var rest := pieces[2..];
      assert pieces[1..][1..] == rest && pieces[1..][0] == pieces[1];
      assert ([one] + rest)[1..] == rest;
      NeighboursOfFront(one, pieces[1], rest);
      MergedLength([one] + rest);
    } else if pieces != [] {
      MergedLength(pieces[1..]);
    }
  }

  /** Only whether the front is inline counts. */
  lemma NeighboursOfFront(a: Piece, b: Piece, rest: seq<Piece>)
    requires a.inline == b.inline
    ensures Neighbours([a] + rest) == Neighbours([b] + rest)
  {
    assert ([a] + rest)[1..] == rest && ([b] + rest)[1..] == rest;
  }

  lemma {:induction false} PiecesShow(children: seq<Json>)
    ensures AllShow(Pieces(children))
  {
    if children != [] {
      PiecesShow(children[1..]);
    }
  }

  /** How many line breaks the code puts where the documentation has none. */
  function Breaks(node: Json): nat
    decreases node, 1
  {
    match NodeChildren(node)
    case None => 0
    case Some(children) => Neighbours(Pieces(children)) + BreaksOf(children)
  }

  function BreaksOf(children: seq<Json>): nat
    decreases children, 0
  {
    if children == [] then 0 else Breaks(children[0]) + BreaksOf(children[1..])
  }

  lemma {:induction false} NoBreaksIff(node: Json)
    ensures Breaks(node) == 0 <==> TextsStandAlone(node)
    decreases node, 1
  {
    match NodeChildren(node)
    case None =>
    case Some(children) => NoBreaksOfIff(children);
  }

  lemma {:induction false} NoBreaksOfIff(children: seq<Json>)
    ensures BreaksOf(children) == 0 <==> AllStandAlone(children)
    decreases children, 0
  {
    if children != [] {
      NoBreaksIff(children[0]);
      NoBreaksOfIff(children[1..]);
    }
  }

  /** The code's text is longer than the documented one by exactly its extra line breaks. */
  lemma {:induction false} ExtraLength(node: Json)
    ensures |Project(node)| == |BlockProject(node)| + Breaks(node)
    ensures Project(node) == "" <==> BlockProject(node) == ""
    ensures Breaks(node) == 0 ==> Project(node) == BlockProject(node)
    decreases node, 1
  {
    match NodeChildren(node)
    case None =>
    case Some(children) =>
      ExtraLengths(children);
      PiecesShow(children);
      MergedLength(Pieces(children));
      JoinedLengths(Parts(children), Pieces(children));
  }

  lemma JoinedLengths(parts: seq<string>, pieces: seq<Piece>)
    requires |parts| == |pieces| && AllNonEmpty(parts) && AllNonEmpty(Merged(pieces))
    requires |Merged(pieces)| + Neighbours(pieces) == |pieces|
    requires pieces != [] ==> Merged(pieces) != []
    ensures |Join(parts)| - Total(parts) == |Join(Merged(pieces))| - Total(Merged(pieces)) + Neighbours(pieces)
    ensures Join(parts) == "" <==> Join(Merged(pieces)) == ""
  {
    JoinOfNonEmpty(parts);
    JoinOfNonEmpty(Merged(pieces));
    if parts != [] {
      JoinLength(parts);
      JoinLength(Merged(pieces));
    }
  }

  lemma {:induction false} ExtraLengths(children: seq<Json>)
    ensures |Parts(children)| == |Pieces(children)| && AllNonEmpty(Parts(children))
    ensures Total(Parts(children)) == Total(PieceTexts(Pieces(children))) + BreaksOf(children)
    ensures BreaksOf(children) == 0 ==> Parts(children) == PieceTexts(Pieces(children))
    decreases children, 0
  {
    if children != [] {
      ExtraLength(children[0]);
      ExtraLengths(children[1..]);
      FrontLengths(Project(children[0]), NodeChildren(children[0]).None?, BlockProject(children[0]), Breaks(children[0]),
                   Parts(children[1..]), Pieces(children[1..]), BreaksOf(children[1..]));
    }
  }

  lemma FrontLengths(p: string, inline: bool, q: string, k: nat, parts: seq<string>, pieces: seq<Piece>, n: nat)
    requires |p| == |q| + k && (p == "" <==> q == "") && (k == 0 ==> p == q)
    requires |parts| == |pieces| && AllNonEmpty(parts) && Total(parts) == Total(PieceTexts(pieces)) + n
    requires n == 0 ==> parts == PieceTexts(pieces)
    ensures |NonEmpty(p) + parts| == |Shown(inline, q) + pieces| && AllNonEmpty(NonEmpty(p) + parts)
    ensures Total(NonEmpty(p) + parts) == Total(PieceTexts(Shown(inline, q) + pieces)) + k + n
    ensures k + n == 0 ==> NonEmpty(p) + parts == PieceTexts(Shown(inline, q) + pieces)
  {
    if p == "" {
      assert NonEmpty(p) + parts == parts && Shown(inline, q) + pieces == pieces;
    } else {
      FrontParts(p, parts, Piece(inline, q), pieces);
    }
  }

  lemma FrontParts(part: string, parts: seq<string>, piece: Piece, pieces: seq<Piece>)
    ensures Total([part] + parts) == |part| + Total(parts)
    ensures PieceTexts([piece] + pieces) == [piece.text] + PieceTexts(pieces)
    ensures Total(PieceTexts([piece] + pieces)) == |piece.text| + Total(PieceTexts(pieces))
  {
    assert ([part] + parts)[1..] == parts && ([piece] + pieces)[1..] == pieces;
    assert ([piece.text] + PieceTexts(pieces))[1..] == PieceTexts(pieces);
  }

  /** The code shows what the documentation describes if and only if no container holds two neighbouring texts. */
  lemma DocumentedIff(node: Json)
    ensures Project(node) == BlockProject(node) <==> TextsStandAlone(node)
  {
    ExtraLength(node);
    NoBreaksIff(node);
  }

  // ----- a paragraph with a bold word ---------------------------------------------------------

  function TextNode(text: string, marks: seq<Json>): Json {
    Object(map["type" := Str("text"), "text" := Str(text), "marks" := List(marks)])
  }

  const BOLD := Object(map["type" := Str("bold")])

  lemma TwoTexts(a: Json, b: Json)
    requires NodeChildren(a).None? && NodeChildren(b).None? && NodeText(a) != "" && NodeText(b) != ""
    ensures Parts([a, b]) == [NodeText(a), NodeText(b)]
    ensures Pieces([a, b]) == [Piece(true, NodeText(a)), Piece(true, NodeText(b))]
  {
    assert [a, b][1..] == [b] && [b][1..] == [];
    assert Parts([b]) == [NodeText(b)] && Pieces([b]) == [Piece(true, NodeText(b))];
  }

  lemma TwoMerge(x: string, y: string)
    ensures Join(Merged([Piece(true, x), Piece(true, y)])) == x + y && Join([x, y]) == x + "\n" + y
  {
    assert [Piece(true, x), Piece(true, y)][2..] == [] && [x, y][1..] == [y];
    assert Merged([Piece(true, x + y)]) == [x + y];
  }

  /** The bold word of a paragraph lands on a line of its own. */
  lemma BoldBreaksTheLine() returns (paragraph: Json)
    ensures Project(paragraph) == "be" + "\n" + "still" && BlockProject(paragraph) == "be" + "still"
  {
    var a, b := TextNode("be", []), TextNode("still", [BOLD]);
    paragraph := Object(map["type" := Str("paragraph"), "content" := List([a, b])]);
    TwoTexts(a, b);
    TwoMerge("be", "still");
  }
}
