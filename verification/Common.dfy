/** Small vocabulary shared by the other modules. */
module Common {
  datatype Option<+T> = None | Some(value: T)

  method AnyOf<T(==)>(s: set<T>) returns (x: T)
    requires s != {}
    ensures x in s
  {
    x :| x in s;
  }

  /** First occurrences only. */
  function Firsts<T(==)>(s: seq<T>): seq<T> {
    if s == [] then []
    else
      var before := Firsts(s[..|s| - 1]);
      if s[|s| - 1] in before then before else before + [s[|s| - 1]]
  }

  lemma {:induction false} FirstsMeaning<T>(s: seq<T>)
    ensures forall x :: x in Firsts(s) <==> x in s
    ensures forall i, j :: 0 <= i < j < |Firsts(s)| ==> Firsts(s)[i] != Firsts(s)[j]
  {
    if s != [] {
      FirstsMeaning(s[..|s| - 1]);
      assert s == s[..|s| - 1] + [s[|s| - 1]];
    }
  }

  /** Where `x` occurs first. */
  function Place<T(==)>(s: seq<T>, x: T): nat {
    if s == [] then 0 else if x in s[..|s| - 1] then Place(s[..|s| - 1], x) else |s| - 1
  }

  lemma {:induction false} PlaceIsFirst<T>(s: seq<T>, x: T)
    requires x in s
    ensures Place(s, x) < |s| && s[Place(s, x)] == x && x !in s[..Place(s, x)]
  {
    var front := s[..|s| - 1];
    if x in front {
      PlaceIsFirst(front, x);
      assert s[..Place(front, x)] == front[..Place(front, x)];
    }
  }

  /** And they come in the order of those occurrences. */
  lemma {:induction false} FirstsInOrder<T>(s: seq<T>, i: nat, j: nat)
    requires i < j < |Firsts(s)|
    ensures Place(s, Firsts(s)[i]) < Place(s, Firsts(s)[j])
  {
    var front := s[..|s| - 1];
    FirstOccurs(front, i);
    PlaceIsFirst(front, Firsts(front)[i]);
    if j < |Firsts(front)| {
      FirstsInOrder(front, i, j);
      FirstOccurs(front, j);
    } else {
      FirstsHave(front, s[|s| - 1]);
    }
  }

  lemma FirstsHave<T>(s: seq<T>, x: T)
    ensures x in Firsts(s) <==> x in s
  {
    FirstsMeaning(s);
  }

  lemma FirstOccurs<T>(s: seq<T>, i: nat)
    requires i < |Firsts(s)|
    ensures Firsts(s)[i] in s
  {
    FirstsMeaning(s);
    var firsts := Firsts(s);
    assert firsts[i] in firsts;
  }

  lemma FirstsAppend<T>(s: seq<T>, x: T)
    ensures Firsts(s + [x]) == if x in Firsts(s) then Firsts(s) else Firsts(s) + [x]
  {
    assert (s + [x])[..|s|] == s;
  }
}
