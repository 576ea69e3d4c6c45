/**
 `derive_content_text` (api/documents.py): the explicit-stack walk over a ProseMirror node tree.
*/
module ContentText {
  import opened Common

  datatype Json =
    | Null
    | Bool(b: bool)
    | Num(n: int)
    | Str(s: string)
    | List(items: seq<Json>)
    | Object(fields: map<string, Json>)

  // ----- the two node helpers --------------------------------------------------

  predicate IsText(node: Json) {
    node.Object? && "type" in node.fields && node.fields["type"] == Str("text")
  }

  /** Child list of a container; None for a text node, a leaf or a scalar. */
  function NodeChildren(node: Json): Option<seq<Json>>
  {
    match node
    case Object(fields) =>
      if !IsText(node) && "content" in fields && fields["content"].List? then Some(fields["content"].items) else None
    case List(items) => Some(items)
    case _ => None
  }

  function NodeText(node: Json): string {
    if IsText(node) && "text" in node.fields && node.fields["text"].Str? then node.fields["text"].s else ""
  }

  // ----- the recursive projection -------------------------------------------------

  function Join(parts: seq<string>): string {
    if parts == [] then ""
    else if |parts| == 1 then parts[0]
    else parts[0] + "\n" + Join(parts[1..])
  }

  function NonEmpty(part: string): seq<string> {
    if part == "" then [] else [part]
  }

  /** A text node's text; otherwise the newline-join of the children's non-empty projections. */
  function Project(node: Json): string
    decreases node, 1
  {
    match NodeChildren(node)
    case None => NodeText(node)
    case Some(children) => Join(Parts(children))
  }

  function Parts(children: seq<Json>): seq<string>
    decreases children, 0
  {
    if children == [] then [] else NonEmpty(Project(children[0])) + Parts(children[1..])
  }

  // ----- what the projection means --------------------------------------------------

  /** Every non-empty text of the tree, in document order, however deep. */
  function Texts(node: Json): seq<string>
    decreases node, 1
  {
    match NodeChildren(node)
    case None => NonEmpty(NodeText(node))
    case Some(children) => TextsOf(children)
  }

  function TextsOf(children: seq<Json>): seq<string>
    decreases children, 0
  {
    if children == [] then [] else Texts(children[0]) + TextsOf(children[1..])
  }

  predicate AllNonEmpty(parts: seq<string>) {
    forall i :: 0 <= i < |parts| ==> parts[i] != ""
  }

  lemma {:induction false} JoinOfNonEmpty(parts: seq<string>)
    requires AllNonEmpty(parts)
    ensures Join(parts) == "" <==> parts == []
  {
    if |parts| > 1 {
      assert Join(parts)[|parts[0]|] == '\n';
    }
  }

  lemma {:induction false} JoinConcat(a: seq<string>, b: seq<string>)
    requires a != [] && b != []
    ensures Join(a + b) == Join(a) + "\n" + Join(b)
  {
    if |a| == 1 {
      assert (a + b)[1..] == b;
    } else {
      JoinConcat(a[1..], b);
      assert (a + b)[1..] == a[1..] + b;
    }
  }

  /**
   Nesting does not show in the projection: it is the newline-join of all non-empty texts of the tree
   in document order.  In particular, two text nodes of one paragraph land on separate lines.
  */
  lemma {:induction false} ProjectionIsFlat(node: Json)
    ensures AllNonEmpty(Texts(node))
    ensures Project(node) == Join(Texts(node))
    decreases node, 1
  {
    match NodeChildren(node)
    case None =>
    case Some(children) => PartsAreFlat(children);
  }

  lemma {:induction false} PartsAreFlat(children: seq<Json>)
    ensures AllNonEmpty(TextsOf(children)) && AllNonEmpty(Parts(children))
    ensures Join(Parts(children)) == Join(TextsOf(children))
    decreases children, 0
  {
    if children != [] {
      var first, rest := Texts(children[0]), TextsOf(children[1..]);
      ProjectionIsFlat(children[0]);
      PartsAreFlat(children[1..]);
      JoinOfNonEmpty(first);
      JoinOfNonEmpty(rest);
      var p, ps := Project(children[0]), Parts(children[1..]);
      JoinOfNonEmpty(ps);
      if first == [] {
        assert Parts(children) == ps && TextsOf(children) == rest;
      } else {
        assert Parts(children) == [p] + ps;
        if rest == [] {
          assert first + rest == first && [p] + ps == [p];
        } else {
          JoinConcat(first, rest);
          JoinConcat([p], ps);
        }
      }
    }
  }

  // ----- the explicit-stack walk ------------------------------------------------------

  /** One container node mid-walk. */
  class Frame {
    const children: seq<Json>
    var parts: seq<string>
    var cursor: nat

    constructor (children: seq<Json>)
      ensures this.children == children && parts == [] && cursor == 0
    {
      this.children := children;
      parts, cursor := [], 0;
    }
  }

  /** What a frame still has to say: the parts it holds and the children it has not visited. */
  datatype View = View(parts: seq<string>, rest: seq<Json>)

  ghost function ViewOf(f: Frame): View
    reads f
    requires f.cursor <= |f.children|
  {
    View(f.parts, f.children[f.cursor..])
  }

  /** `vs` describes the frames of `stack`, which are pairwise distinct. */
  ghost predicate Describes(stack: seq<Frame>, vs: seq<View>)
    reads stack
  {
    && |vs| == |stack|
    && (forall i :: 0 <= i < |stack| ==> stack[i].cursor <= |stack[i].children| && vs[i] == ViewOf(stack[i]))
    && (forall i, j :: 0 <= i < j < |stack| ==> stack[i] != stack[j])
  }

  /** What the walk returns once `folded` is handed to the frames `vs`, the last one first. */
  ghost function ResumeWith(vs: seq<View>, folded: string): string {
    if vs == [] then folded
    else
      var top := vs[|vs| - 1];
      ResumeWith(vs[..|vs| - 1], Join(top.parts + NonEmpty(folded) + Parts(top.rest)))
  }

  /** What the walk returns from the frames `vs`. */
  ghost function Resume(vs: seq<View>): string
    requires vs != []
  {
    var top := vs[|vs| - 1];
    ResumeWith(vs[..|vs| - 1], Join(top.parts + Parts(top.rest)))
  }

  // ----- the unvisited nodes -------------------------------------------------------------

  ghost function Size(node: Json): nat
    decreases node, 1
  {
    match NodeChildren(node)
    case None => 1
    case Some(children) => 1 + SizeOf(children)
  }

  ghost function SizeOf(children: seq<Json>): nat
    decreases children, 0
  {
    if children == [] then 0 else Size(children[0]) + SizeOf(children[1..])
  }

  /** Nodes not yet visited below the frames `vs`: the termination measure. */
  ghost function Unvisited(vs: seq<View>): nat {
    if vs == [] then 0 else Unvisited(vs[..|vs| - 1]) + SizeOf(vs[|vs| - 1].rest)
  }

  lemma TopOf(vs: seq<View>, v: View)
    ensures Resume(vs + [v]) == ResumeWith(vs, Join(v.parts + Parts(v.rest)))
    ensures Unvisited(vs + [v]) == Unvisited(vs) + SizeOf(v.rest)
  {
    assert (vs + [v])[..|vs|] == vs;
  }

  /** A leaf child folds its own text into its parent. */
  lemma LeafStep(vs: seq<View>, parts: seq<string>, child: Json, rest: seq<Json>)
    requires NodeChildren(child).None?
    ensures Resume(vs + [View(parts + NonEmpty(NodeText(child)), rest)]) == Resume(vs + [View(parts, [child] + rest)])
    ensures Unvisited(vs + [View(parts + NonEmpty(NodeText(child)), rest)]) < Unvisited(vs + [View(parts, [child] + rest)])
  {
    TopOf(vs, View(parts, [child] + rest));
    TopOf(vs, View(parts + NonEmpty(NodeText(child)), rest));
    assert parts + Parts([child] + rest) == parts + NonEmpty(NodeText(child)) + Parts(rest);
  }

  /** A container child suspends its parent. */
  lemma DescendStep(vs: seq<View>, parts: seq<string>, child: Json, rest: seq<Json>)
    requires NodeChildren(child).Some?
    ensures Resume(vs + [View(parts, rest)] + [View([], NodeChildren(child).value)]) == Resume(vs + [View(parts, [child] + rest)])
    ensures Unvisited(vs + [View(parts, rest)] + [View([], NodeChildren(child).value)]) < Unvisited(vs + [View(parts, [child] + rest)])
  {
    DescendShrinks(vs, parts, child, rest);
    var kids := NodeChildren(child).value;
    TopOf(vs, View(parts, [child] + rest));
    TopOf(vs + [View(parts, rest)], View([], kids));
    assert [] + Parts(kids) == Parts(kids);
    assert (vs + [View(parts, rest)])[..|vs|] == vs;
    assert parts + Parts([child] + rest) == parts + NonEmpty(Project(child)) + Parts(rest);
  }

  lemma DescendShrinks(vs: seq<View>, parts: seq<string>, child: Json, rest: seq<Json>)
    requires NodeChildren(child).Some?
    ensures Unvisited(vs + [View(parts, rest)] + [View([], NodeChildren(child).value)]) < Unvisited(vs + [View(parts, [child] + rest)])
  {
    TopOf(vs, View(parts, [child] + rest));
    TopOf(vs, View(parts, rest));
    TopOf(vs + [View(parts, rest)], View([], NodeChildren(child).value));
  }

  /** A frame without children left hands its fold to the frame below. */
  lemma FoldStep(vs: seq<View>, below: View, parts: seq<string>)
    ensures Resume(vs + [below.(parts := below.parts + NonEmpty(Join(parts)))]) == Resume(vs + [below] + [View(parts, [])])
    ensures Unvisited(vs + [below.(parts := below.parts + NonEmpty(Join(parts)))]) == Unvisited(vs + [below] + [View(parts, [])])
  {
    TopOf(vs + [below], View(parts, []));
    TopOf(vs, below);
    TopOf(vs, below.(parts := below.parts + NonEmpty(Join(parts))));
    assert parts + [] == parts && (vs + [below])[..|vs|] == vs;
  }

  /** `if part: frame.parts.append(part)` on the top frame. */
  method AppendPart(stack: seq<Frame>, part: string, ghost below: seq<View>, ghost v: View)
    requires stack != [] && Describes(stack, below + [v])
    modifies stack[|stack| - 1]
    ensures Describes(stack, below + [v.(parts := v.parts + NonEmpty(part))])
    ensures stack[|stack| - 1].cursor == old(stack[|stack| - 1].cursor)
  {
    var frame := stack[|stack| - 1];
    assert ViewOf(frame) == v;
    if part != "" {
      frame.parts := frame.parts + [part];
    }
    assert ViewOf(frame) == v.(parts := v.parts + NonEmpty(part));
  }

  /** One child of the top frame: a leaf folds in, a container suspends the frame. */
  method Visit(stack: seq<Frame>, ghost vs: seq<View>) returns (next: seq<Frame>, ghost ws: seq<View>)
    requires stack != [] && Describes(stack, vs) && vs[|vs| - 1].rest != []
    modifies stack[|stack| - 1]
    ensures next != [] && Describes(next, ws) && forall i :: 0 <= i < |next| ==> fresh(next[i]) || next[i] in stack
    ensures Resume(ws) == Resume(vs) && Unvisited(ws) < Unvisited(vs)
  {
    var child;
    ghost var below, parts, rest;
    child, below, parts, rest := NextChild(stack, vs);
    if NodeChildren(child).None? {
      next := stack;
      ws := VisitLeaf(stack, child, below, parts, rest);
    } else {
      next := Descend(stack, NodeChildren(child).value, below + [View(parts, rest)]);
      DescendStep(below, parts, child, rest);
      ws := below + [View(parts, rest)] + [View([], NodeChildren(child).value)];
    }
  }

  /** A leaf's text joins the parts of its parent. */
  method VisitLeaf(stack: seq<Frame>, child: Json, ghost below: seq<View>, ghost parts: seq<string>, ghost rest: seq<Json>)
    returns (ghost ws: seq<View>)
    requires stack != [] && Describes(stack, below + [View(parts, rest)]) && NodeChildren(child).None?
    modifies stack[|stack| - 1]
    ensures ws != [] && Describes(stack, ws)
    ensures Resume(ws) == Resume(below + [View(parts, [child] + rest)])
    ensures Unvisited(ws) < Unvisited(below + [View(parts, [child] + rest)])
  {
    var part := NodeText(child);
    AppendPart(stack, part, below, View(parts, rest));
    LeafStep(below, parts, child, rest);
    ws := below + [View(parts + NonEmpty(part), rest)];
  }

  /** The cursor of the top frame moves past the child it returns. */
  method NextChild(stack: seq<Frame>, ghost vs: seq<View>)
    returns (child: Json, ghost below: seq<View>, ghost parts: seq<string>, ghost rest: seq<Json>)
    requires stack != [] && Describes(stack, vs) && vs[|vs| - 1].rest != []
    modifies stack[|stack| - 1]
    ensures vs == below + [View(parts, [child] + rest)] && Describes(stack, below + [View(parts, rest)])
  {
    var frame := stack[|stack| - 1];
    child := frame.children[frame.cursor];
    below, parts, rest := vs[..|vs| - 1], frame.parts, frame.children[frame.cursor + 1..];
    assert frame.children[frame.cursor..] == [child] + rest;
    assert vs == below + [View(parts, [child] + rest)];
    frame.cursor := frame.cursor + 1;
  }

  method Descend(stack: seq<Frame>, grandkids: seq<Json>, ghost vs: seq<View>) returns (next: seq<Frame>)
    requires Describes(stack, vs)
    ensures |next| == |stack| + 1 && next[..|stack|] == stack && fresh(next[|stack|])
    ensures Describes(next, vs + [View([], grandkids)])
  {
    var inner := new Frame(grandkids);
    assert grandkids[0..] == grandkids;
    next := stack + [inner];
  }

  /** The finished top frame hands its fold to the frame below, if there is one. */
  method Fold(stack: seq<Frame>, ghost vs: seq<View>) returns (next: seq<Frame>, folded: string, ghost ws: seq<View>)
    requires stack != [] && Describes(stack, vs) && vs[|vs| - 1].rest == []
    modifies if |stack| > 1 then {stack[|stack| - 2]} else {}
    ensures next == stack[..|stack| - 1] && Describes(next, ws)
    ensures next == [] ==> folded == Resume(vs)
    ensures next != [] ==> Resume(ws) == Resume(vs) && Unvisited(ws) == Unvisited(vs)
  {
    var frame := stack[|stack| - 1];
    folded := Join(frame.parts);
    next, ws := stack[..|stack| - 1], vs[..|vs| - 1];
    assert vs == ws + [View(frame.parts, [])];
    if next == [] {
      LastFold(frame.parts);
    } else {
      ws := FoldInto(next, folded, ws, frame.parts);
    }
  }

  lemma LastFold(parts: seq<string>)
    ensures Resume([] + [View(parts, [])]) == Join(parts)
  {
    TopOf([], View(parts, []));
    assert parts + [] == parts;
  }

  method FoldInto(stack: seq<Frame>, folded: string, ghost vs: seq<View>, ghost parts: seq<string>) returns (ghost ws: seq<View>)
    requires stack != [] && Describes(stack, vs) && folded == Join(parts)
    modifies stack[|stack| - 1]
    ensures Describes(stack, ws) && Resume(ws) == Resume(vs + [View(parts, [])]) && Unvisited(ws) == Unvisited(vs + [View(parts, [])])
  {
    ghost var v := vs[|vs| - 1];
    ghost var below := vs[..|vs| - 1];
    assert vs == below + [v];
    FoldStep(below, v, parts);
    AppendPart(stack, folded, below, v);
    ws := below + [v.(parts := v.parts + NonEmpty(folded))];
  }

  /** The iterative walk returns the recursive projection, for every tree. */
  method DeriveContentText(content: Json) returns (text: string)
    ensures text == Project(content)
  {
    var children := NodeChildren(content);
    if children.None? {
      return NodeText(content);
    }
    var root := new Frame(children.value);
    var stack := [root];
    ghost var vs := [View([], children.value)];
    assert children.value[0..] == children.value && [] + Parts(children.value) == Parts(children.value);
    while true
      invariant stack != [] && Describes(stack, vs)
      invariant forall i :: 0 <= i < |stack| ==> fresh(stack[i])
      invariant Resume(vs) == Project(content)
      decreases Unvisited(vs), |stack|
    {
      var frame := stack[|stack| - 1];
      if frame.cursor < |frame.children| {
        stack, vs := Visit(stack, vs);
      } else {
        stack, text, vs := Fold(stack, vs);
        if stack == [] {
          return;
        }
      }
    }
  }
}
