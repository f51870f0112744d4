/** Message entities and their merging (internal/mtproto/pyformat/pyformat.go).
    What an entity list means is its coverage: how many entities of each shape
    lie over each UTF-16 position. */
module Entities {

  /** A mention's target; only a plain InputUser carries a user id. */
  datatype User = InputUser(id: int) | OtherUser(tag: string)

  datatype Kind =
    | Bold | Italic | Underline | Strike | Code | Spoiler
    | Pre(language: string)
    | Blockquote(collapsed: bool)
    | TextURL(url: string)
    | Mention(user: User)
    | CustomEmoji(documentId: int)

  /** shapeKey: the kind with its attributes, a mention by its user id or -1. */
  function Shape(k: Kind): Kind {
    if k.Mention? && k.user.OtherUser? then Mention(InputUser(-1)) else k
  }

  /** The id by which a mention is told apart: -1 for a user without one. */
  function UserId(k: Kind): int
    requires k.Mention?
  {
    match k.user
    case InputUser(id) => id
    case OtherUser(_) => -1
  }

  /** Only mentions of one user id share a shape; all other kinds are merged with
      their equals alone, attributes included. */
  lemma ShapeIff(a: Kind, b: Kind)
    ensures Shape(a) == Shape(b) <==> a == b || (a.Mention? && b.Mention? && UserId(a) == UserId(b))
  {
    if a.Mention? && b.Mention? && a.user.InputUser? && b.user.InputUser? {
      assert a.user == InputUser(UserId(a)) && b.user == InputUser(UserId(b));
    }
  }

  /** A range in UTF-16 code units. */
  datatype Entity = Entity(offset: int, length: nat, kind: Kind)
  {
    function End(): int { offset + length }

    predicate Covers(x: int) { offset <= x < End() }
  }

  predicate Has(e: Entity, shape: Kind, x: int) { Shape(e.kind) == shape && e.Covers(x) }

  function Cover(s: seq<Entity>, shape: Kind, x: int): nat {
    if s == [] then 0
    else Cover(s[..|s| - 1], shape, x) + if Has(s[|s| - 1], shape, x) then 1 else 0
  }

  lemma {:induction false} CoverAppend(a: seq<Entity>, b: seq<Entity>, shape: Kind, x: int)
    ensures Cover(a + b, shape, x) == Cover(a, shape, x) + Cover(b, shape, x)
  {
    if b == [] {
      assert a + b == a;
    } else {
      CoverAppend(a, b[..|b| - 1], shape, x);
      assert (a + b)[..|a + b| - 1] == a + b[..|b| - 1];
    }
  }

  lemma {:induction false} CoverPush(a: seq<Entity>, e: Entity, shape: Kind, x: int)
    ensures Cover(a + [e], shape, x) == Cover(a, shape, x) + if Has(e, shape, x) then 1 else 0
  {
    assert (a + [e])[..|a|] == a;
  }

  // ---- Stable sorting ----

  datatype Order = ByOffset | ByOffsetThenLength

  predicate Le(o: Order, a: Entity, b: Entity) {
    a.offset < b.offset || (a.offset == b.offset && (o == ByOffset || a.length <= b.length))
  }

  ghost predicate Sorted(o: Order, s: seq<Entity>) { forall i, j | 0 <= i < j < |s| :: Le(o, s[i], s[j]) }

  /** Puts e behind everything not above it, as a stable sort does. */
  function Insert(o: Order, s: seq<Entity>, e: Entity): seq<Entity> {
    if s == [] || Le(o, s[|s| - 1], e) then s + [e]
    else Insert(o, s[..|s| - 1], e) + [s[|s| - 1]]
  }

  function StableSort(o: Order, s: seq<Entity>): seq<Entity> {
    if s == [] then [] else Insert(o, StableSort(o, s[..|s| - 1]), s[|s| - 1])
  }

  lemma {:induction false} InsertPermutes(o: Order, s: seq<Entity>, e: Entity)
    ensures multiset(Insert(o, s, e)) == multiset(s) + multiset{e}
    ensures forall x :: x in Insert(o, s, e) <==> x in s || x == e
  {
    if s != [] && !Le(o, s[|s| - 1], e) {
      InsertPermutes(o, s[..|s| - 1], e);
      assert s == s[..|s| - 1] + [s[|s| - 1]];
    }
  }

  lemma {:induction false} InsertSorts(o: Order, s: seq<Entity>, e: Entity)
    requires Sorted(o, s)
    ensures Sorted(o, Insert(o, s, e))
  {
    if s != [] && !Le(o, s[|s| - 1], e) {
      var front, last := s[..|s| - 1], s[|s| - 1];
      InsertSorts(o, front, e);
      var r := Insert(o, front, e);
      forall i | 0 <= i < |r| ensures Le(o, r[i], last) {
        InsertPermutes(o, front, e);
        assert r[i] in r;
      }
    }
  }

  lemma {:induction false} InsertCovers(o: Order, s: seq<Entity>, e: Entity, shape: Kind, x: int)
    ensures Cover(Insert(o, s, e), shape, x) == Cover(s + [e], shape, x)
  {
    CoverPush(s, e, shape, x);
    if s != [] && !Le(o, s[|s| - 1], e) {
      var front, last := s[..|s| - 1], s[|s| - 1];
      InsertCovers(o, front, e, shape, x);
      CoverPush(front, e, shape, x);
      CoverPush(Insert(o, front, e), last, shape, x);
    }
  }

  /** Sorting orders and permutes, so it keeps every coverage. */
  lemma {:induction false} SortLaws(o: Order, s: seq<Entity>)
    ensures Sorted(o, StableSort(o, s))
    ensures multiset(StableSort(o, s)) == multiset(s)
    ensures forall x :: x in StableSort(o, s) <==> x in s
  {
    if s == [] {
    } else {
      SortLaws(o, s[..|s| - 1]);
      InsertPermutes(o, StableSort(o, s[..|s| - 1]), s[|s| - 1]);
      InsertSorts(o, StableSort(o, s[..|s| - 1]), s[|s| - 1]);
      assert s == s[..|s| - 1] + [s[|s| - 1]];
    }
  }

  lemma {:induction false} SortCovers(o: Order, s: seq<Entity>, shape: Kind, x: int)
    ensures Cover(StableSort(o, s), shape, x) == Cover(s, shape, x)
  {
    if s == [] {
    } else {
      var front, last := s[..|s| - 1], s[|s| - 1];
      SortCovers(o, front, shape, x);
      InsertCovers(o, StableSort(o, front), last, shape, x);
      CoverPush(StableSort(o, front), last, shape, x);
    }
  }

  // ---- Merging ----

  function OfShape(s: seq<Entity>, shape: Kind): seq<Entity> {
    if s == [] then []
    else OfShape(s[..|s| - 1], shape) + if Shape(s[|s| - 1].kind) == shape then [s[|s| - 1]] else []
  }

  /** The shapes in order of first appearance. */
  function Shapes(s: seq<Entity>): seq<Kind> {
    if s == [] then []
    else
      var before := Shapes(s[..|s| - 1]);
      var shape := Shape(s[|s| - 1].kind);
      before + if shape in before then [] else [shape]
  }

  /** Extends the last entity over a contiguous one of its shape, or appends. */
  function Join(out: seq<Entity>, e: Entity): seq<Entity> {
    if out != [] && Shape(out[|out| - 1].kind) == Shape(e.kind) && out[|out| - 1].End() == e.offset then
      out[|out| - 1 := out[|out| - 1].(length := out[|out| - 1].length + e.length)]
    else out + [e]
  }

  function Coalesce(out: seq<Entity>, g: seq<Entity>): seq<Entity> {
    if g == [] then out else Join(Coalesce(out, g[..|g| - 1]), g[|g| - 1])
  }

  function MergeShapes(s: seq<Entity>, shapes: seq<Kind>): seq<Entity> {
    if shapes == [] then []
    else
      Coalesce(MergeShapes(s, shapes[..|shapes| - 1]), StableSort(ByOffset, OfShape(s, shapes[|shapes| - 1])))
  }

  function Merge(s: seq<Entity>): seq<Entity> {
    if |s| < 2 then s else StableSort(ByOffsetThenLength, MergeShapes(s, Shapes(s)))
  }

  // ---- Merging keeps the coverage ----

  lemma {:induction false} JoinCovers(out: seq<Entity>, e: Entity, shape: Kind, x: int)
    ensures Cover(Join(out, e), shape, x) == Cover(out + [e], shape, x)
  {
    CoverPush(out, e, shape, x);
    if out != [] && Join(out, e) != out + [e] {
      var front, last := out[..|out| - 1], out[|out| - 1];
      var wide := last.(length := last.length + e.length);
      assert Join(out, e) == front + [wide];
      CoverPush(front, wide, shape, x);
    }
  }

  lemma {:induction false} CoalesceCovers(out: seq<Entity>, g: seq<Entity>, shape: Kind, x: int)
    ensures Cover(Coalesce(out, g), shape, x) == Cover(out, shape, x) + Cover(g, shape, x)
  {
    if g == [] {
    } else {
      var front, last := g[..|g| - 1], g[|g| - 1];
      CoalesceCovers(out, front, shape, x);
      JoinCovers(Coalesce(out, front), last, shape, x);
      CoverPush(Coalesce(out, front), last, shape, x);
    }
  }

  lemma {:induction false} ShapeCovers(s: seq<Entity>, shape: Kind, other: Kind, x: int)
    ensures Cover(OfShape(s, shape), other, x) == if shape == other then Cover(s, shape, x) else 0
  {
    if s == [] {
    } else {
      var front, last := s[..|s| - 1], s[|s| - 1];
      ShapeCovers(front, shape, other, x);
      CoverPush(OfShape(front, shape), last, other, x);
      assert OfShape(s, shape)
             == if Shape(last.kind) == shape then OfShape(front, shape) + [last] else OfShape(front, shape);
    }
  }

  ghost predicate NoRepeats(shapes: seq<Kind>) { forall i, j | 0 <= i < j < |shapes| :: shapes[i] != shapes[j] }

  lemma {:induction false} ShapesLaws(s: seq<Entity>)
    ensures NoRepeats(Shapes(s))
    ensures forall e | e in s :: Shape(e.kind) in Shapes(s)
  {
    if s == [] {
    } else {
      ShapesLaws(s[..|s| - 1]);
      assert s == s[..|s| - 1] + [s[|s| - 1]];
    }
  }

  lemma {:induction false} MergeShapesCovers(s: seq<Entity>, shapes: seq<Kind>, shape: Kind, x: int)
    requires NoRepeats(shapes)
    ensures Cover(MergeShapes(s, shapes), shape, x) == if shape in shapes then Cover(s, shape, x) else 0
  {
    if shapes == [] {
    } else {
      var front, last := shapes[..|shapes| - 1], shapes[|shapes| - 1];
      MergeShapesCovers(s, front, shape, x);
      CoalesceCovers(MergeShapes(s, front), StableSort(ByOffset, OfShape(s, last)), shape, x);
      SortCovers(ByOffset, OfShape(s, last), shape, x);
      ShapeCovers(s, last, shape, x);
      assert shapes == front + [last];
    }
  }

  lemma {:induction false} UnseenCovers(s: seq<Entity>, shape: Kind, x: int)
    requires forall e | e in s :: Shape(e.kind) != shape
    ensures Cover(s, shape, x) == 0
  {
    if s == [] {
    } else {
      assert s[|s| - 1] in s;
      UnseenCovers(s[..|s| - 1], shape, x);
    }
  }

  /** MergeAdjacent keeps, for every list, every shape and every position, the
      number of entities over it. */
  lemma {:induction false} MergeKeepsCoverage(s: seq<Entity>, shape: Kind, x: int)
    ensures Cover(Merge(s), shape, x) == Cover(s, shape, x)
  {
    if |s| >= 2 {
      ShapesLaws(s);
      MergeShapesCovers(s, Shapes(s), shape, x);
      SortCovers(ByOffsetThenLength, MergeShapes(s, Shapes(s)), shape, x);
      if shape !in Shapes(s) { UnseenCovers(s, shape, x); }
    }
  }

  lemma MergeSorts(s: seq<Entity>)
    ensures Sorted(ByOffsetThenLength, Merge(s))
    ensures forall i, j | 0 <= i < j < |Merge(s)| ::
              var a, b := Merge(s)[i], Merge(s)[j];
              a.offset < b.offset || (a.offset == b.offset && a.length <= b.length)
  {
    if |s| >= 2 { SortLaws(ByOffsetThenLength, MergeShapes(s, Shapes(s))); }
  }

  // ---- Merging leaves nothing contiguous ----

  ghost predicate NonEmpty(s: seq<Entity>) { forall i | 0 <= i < |s| :: s[i].length > 0 }

  /** No position lies under two entities of one shape. */
  ghost predicate Disjoint(s: seq<Entity>) { forall shape, x :: Cover(s, shape, x) <= 1 }

  /** No entity ends where another one of its shape starts. */
  ghost predicate Apart(s: seq<Entity>) {
    forall i, j | 0 <= i < |s| && 0 <= j < |s| && i != j && Shape(s[i].kind) == Shape(s[j].kind) ::
      s[i].End() != s[j].offset
  }

  /** Entities of one shape come in order with a gap between them. */
  ghost predicate Gapped(s: seq<Entity>) {
    forall i, j | 0 <= i < j < |s| && Shape(s[i].kind) == Shape(s[j].kind) :: s[i].End() < s[j].offset
  }

  lemma {:induction false} OneCovers(s: seq<Entity>, i: nat, shape: Kind, x: int)
    requires i < |s| && Has(s[i], shape, x)
    ensures Cover(s, shape, x) >= 1
  {
    if i < |s| - 1 { OneCovers(s[..|s| - 1], i, shape, x); }
  }

  lemma {:induction false} TwoCover(s: seq<Entity>, i: nat, j: nat, shape: Kind, x: int)
    requires i < j < |s| && Has(s[i], shape, x) && Has(s[j], shape, x)
    ensures Cover(s, shape, x) >= 2
  {
    if j < |s| - 1 { TwoCover(s[..|s| - 1], i, j, shape, x); } else { OneCovers(s[..|s| - 1], i, shape, x); }
  }

  lemma {:induction false} SomeoneCovers(s: seq<Entity>, shape: Kind, x: int) returns (i: nat)
    requires Cover(s, shape, x) >= 1
    ensures i < |s| && Has(s[i], shape, x)
  {
    if Has(s[|s| - 1], shape, x) { i := |s| - 1; } else { i := SomeoneCovers(s[..|s| - 1], shape, x); }
  }

  /** A chain: each entity starts no earlier than the one before it ends. */
  ghost predicate Chain(g: seq<Entity>, shape: Kind) {
    && (forall i | 0 <= i < |g| :: Shape(g[i].kind) == shape)
    && (forall i, j | 0 <= i < j < |g| :: g[i].End() <= g[j].offset)
  }

  lemma {:induction false} DisjointIsChain(g: seq<Entity>, shape: Kind)
    requires Sorted(ByOffset, g) && NonEmpty(g) && forall i | 0 <= i < |g| :: Shape(g[i].kind) == shape
    requires forall x :: Cover(g, shape, x) <= 1
    ensures Chain(g, shape)
  {
    forall i, j | 0 <= i < j < |g| ensures g[i].End() <= g[j].offset {
      if g[i].End() > g[j].offset { TwoCover(g, i, j, shape, g[j].offset); }
    }
  }

  lemma {:induction false} CoalesceGaps(out: seq<Entity>, g: seq<Entity>, shape: Kind)
    requires Gapped(out) && NonEmpty(out) && forall i | 0 <= i < |out| :: Shape(out[i].kind) != shape
    requires Chain(g, shape) && NonEmpty(g)
    ensures var r := Coalesce(out, g);
            && Gapped(r) && NonEmpty(r)
            && (forall i | 0 <= i < |r| :: r[i] in out || Shape(r[i].kind) == shape)
            && (g != [] ==> r != [] && Shape(r[|r| - 1].kind) == shape && r[|r| - 1].End() == g[|g| - 1].End())
  {
    if g == [] {
    } else {
      var front, e := g[..|g| - 1], g[|g| - 1];
      CoalesceGaps(out, front, shape);
      var r := Coalesce(out, front);
      if front != [] { assert front[|front| - 1].End() <= e.offset; }
      JoinGaps(r, e, shape, front == []);
    }
  }

  lemma JoinGaps(r: seq<Entity>, e: Entity, shape: Kind, first: bool)
    requires Gapped(r) && NonEmpty(r) && Shape(e.kind) == shape && e.length > 0
    requires if first then forall i | 0 <= i < |r| :: Shape(r[i].kind) != shape
             else r != [] && Shape(r[|r| - 1].kind) == shape && r[|r| - 1].End() <= e.offset
    ensures var r' := Join(r, e);
            && Gapped(r') && NonEmpty(r') && r' != []
            && (forall i | 0 <= i < |r'| :: r'[i] in r || Shape(r'[i].kind) == shape)
            && Shape(r'[|r'| - 1].kind) == shape && r'[|r'| - 1].End() == e.End()
  {
    var r' := Join(r, e);
    forall i, j | 0 <= i < j < |r'| && Shape(r'[i].kind) == Shape(r'[j].kind) ensures r'[i].End() < r'[j].offset {
      if j == |r'| - 1 && |r'| == |r| + 1 && i < |r| - 1 { assert r[i].End() < r[|r| - 1].offset; }
    }
  }

  lemma {:induction false} OfShapeLaws(s: seq<Entity>, shape: Kind)
    ensures forall e :: e in OfShape(s, shape) <==> e in s && Shape(e.kind) == shape
  {
    if s == [] {
    } else {
      OfShapeLaws(s[..|s| - 1], shape);
      assert s == s[..|s| - 1] + [s[|s| - 1]];
    }
  }

  lemma {:induction false} GroupIsChain(s: seq<Entity>, shape: Kind)
    requires NonEmpty(s) && Disjoint(s)
    ensures var g := StableSort(ByOffset, OfShape(s, shape)); Chain(g, shape) && NonEmpty(g)
  {
    var g := StableSort(ByOffset, OfShape(s, shape));
    OfShapeLaws(s, shape);
    SortLaws(ByOffset, OfShape(s, shape));
    forall i | 0 <= i < |g| ensures Shape(g[i].kind) == shape && g[i].length > 0 {
      assert g[i] in g && g[i] in s;
    }
    forall x ensures Cover(g, shape, x) <= 1 {
      SortCovers(ByOffset, OfShape(s, shape), shape, x);
      ShapeCovers(s, shape, shape, x);
    }
    DisjointIsChain(g, shape);
  }

  lemma {:induction false} MergeShapesGaps(s: seq<Entity>, shapes: seq<Kind>)
    requires NonEmpty(s) && Disjoint(s) && NoRepeats(shapes)
    ensures var r := MergeShapes(s, shapes);
            Gapped(r) && NonEmpty(r) && forall i | 0 <= i < |r| :: Shape(r[i].kind) in shapes
  {
    if shapes == [] {
    } else {
      var front, last := shapes[..|shapes| - 1], shapes[|shapes| - 1];
      MergeShapesGaps(s, front);
      GroupIsChain(s, last);
      assert last !in front;
      CoalesceGaps(MergeShapes(s, front), StableSort(ByOffset, OfShape(s, last)), last);
      assert shapes == front + [last];
    }
  }

  /** From disjoint inputs MergeAdjacent leaves no two contiguous entities of one
      shape, none empty and none overlapping. */
  lemma MergeSeparates(s: seq<Entity>)
    requires NonEmpty(s) && Disjoint(s)
    ensures Apart(Merge(s)) && NonEmpty(Merge(s)) && Disjoint(Merge(s))
  {
    hide Cover;
    hide StableSort;
    hide MergeShapes;
    forall shape, x ensures Cover(Merge(s), shape, x) <= 1 { MergeKeepsCoverage(s, shape, x); }
    if |s| >= 2 {
      var r := MergeShapes(s, Shapes(s));
      ShapesLaws(s);
      MergeShapesGaps(s, Shapes(s));
      SortLaws(ByOffsetThenLength, r);
      GappedIsApart(r);
      ApartSorted(ByOffsetThenLength, r);
      forall i | 0 <= i < |Merge(s)| ensures Merge(s)[i].length > 0 {
        assert Merge(s)[i] in r;
      }
    }
  }

  lemma GappedIsApart(r: seq<Entity>)
    requires Gapped(r) && NonEmpty(r)
    ensures Apart(r)
  {}

  /** For non-empty entities it does not matter which copy is meant. */
  lemma {:induction false} ApartSorted(o: Order, r: seq<Entity>)
    requires NonEmpty(r) && Apart(r)
    ensures Apart(StableSort(o, r))
  {
    SortLaws(o, r);
    hide StableSort;
    var t := StableSort(o, r);
    forall i, j | 0 <= i < |t| && 0 <= j < |t| && i != j && Shape(t[i].kind) == Shape(t[j].kind)
      ensures t[i].End() != t[j].offset
    {
      assert t[i] in r && t[j] in r;
      var k :| 0 <= k < |r| && r[k] == t[i];
      var l :| 0 <= l < |r| && r[l] == t[j];
      assert k == l ==> t[i] == t[j] && t[i].length > 0;
    }
  }

  // ---- A separated list is determined by its coverage ----

  ghost predicate Canonical(s: seq<Entity>) { NonEmpty(s) && Disjoint(s) && Apart(s) }

  lemma {:induction false} EdgesUncovered(s: seq<Entity>, i: nat)
    requires Canonical(s) && i < |s|
    ensures var e := s[i]; Cover(s, Shape(e.kind), e.offset - 1) == 0 && Cover(s, Shape(e.kind), e.End()) == 0
  {
    hide Cover;
    var e, shape := s[i], Shape(s[i].kind);
    if Cover(s, shape, e.offset - 1) >= 1 {
      var j := SomeoneCovers(s, shape, e.offset - 1);
      assert j != i && s[j].End() != e.offset;
      TwoCover(s, if i < j then i else j, if i < j then j else i, shape, e.offset);
    }
    if Cover(s, shape, e.End()) >= 1 {
      var j := SomeoneCovers(s, shape, e.End());
      assert j != i && e.End() != s[j].offset;
      TwoCover(s, if i < j then i else j, if i < j then j else i, shape, e.End() - 1);
    }
  }

  function Norm(e: Entity): Entity { e.(kind := Shape(e.kind)) }

  /** With equal coverage, each entity of one list is in the other. */
  lemma {:induction false} SameIntervals(a: seq<Entity>, b: seq<Entity>, i: nat)
    requires Canonical(a) && Canonical(b) && i < |a|
    requires forall shape, x :: Cover(a, shape, x) == Cover(b, shape, x)
    ensures exists j :: 0 <= j < |b| && Norm(b[j]) == Norm(a[i])
  {
    hide Cover;
    var e, shape := a[i], Shape(a[i].kind);
    OneCovers(a, i, shape, e.offset);
    EdgesUncovered(a, i);
    var j := SomeoneCovers(b, shape, e.offset);
    EdgesUncovered(b, j);
    if b[j].offset < e.offset { OneCovers(b, j, shape, e.offset - 1); }
    if b[j].End() > e.End() { OneCovers(b, j, shape, e.End()); }
    if b[j].End() < e.End() { OneCovers(a, i, shape, b[j].End()); }
  }

  ghost function Norms(s: seq<Entity>): seq<Entity> { seq(|s|, i requires 0 <= i < |s| => Norm(s[i])) }

  lemma {:induction false} CountDistinct(s: seq<Entity>, e: Entity)
    requires forall i, j | 0 <= i < j < |s| :: s[i] != s[j]
    ensures multiset(s)[e] == if e in s then 1 else 0
  {
    if s == [] {
    } else {
      CountDistinct(s[..|s| - 1], e);
      assert s == s[..|s| - 1] + [s[|s| - 1]];
    }
  }

  lemma CanonicalIsDistinct(s: seq<Entity>)
    requires Canonical(s)
    ensures forall i, j | 0 <= i < j < |s| :: Norm(s[i]) != Norm(s[j])
  {
    forall i, j | 0 <= i < j < |s| ensures Norm(s[i]) != Norm(s[j]) {
      if Norm(s[i]) == Norm(s[j]) { TwoCover(s, i, j, Shape(s[i].kind), s[i].offset); }
    }
  }

  /** Two separated lists with equal coverage hold the same entities, each once. */
  lemma {:induction false} CoverageDetermines(a: seq<Entity>, b: seq<Entity>)
    requires Canonical(a) && Canonical(b)
    requires forall shape, x :: Cover(a, shape, x) == Cover(b, shape, x)
    ensures multiset(Norms(a)) == multiset(Norms(b))
  {
    CanonicalIsDistinct(a);
    CanonicalIsDistinct(b);
    forall e ensures multiset(Norms(a))[e] == multiset(Norms(b))[e] {
      CountDistinct(Norms(a), e);
      CountDistinct(Norms(b), e);
      if e in Norms(a) {
        var i :| 0 <= i < |a| && Norms(a)[i] == e;
        SameIntervals(a, b, i);
        var j :| 0 <= j < |b| && Norm(b[j]) == Norm(a[i]);
        assert Norms(b)[j] == e;
      }
      if e in Norms(b) {
        var i :| 0 <= i < |b| && Norms(b)[i] == e;
        SameIntervals(b, a, i);
        var j :| 0 <= j < |a| && Norm(a[j]) == Norm(b[i]);
        assert Norms(a)[j] == e;
      }
    }
  }

  // ---- Merging keeps whole kinds ----

  /** Some entity of s starts where m does and is of m's very kind. */
  ghost predicate Headed(m: Entity, s: seq<Entity>) {
    exists k :: 0 <= k < |s| && s[k].offset == m.offset && s[k].kind == m.kind
  }

  /** Some entity of s of m's shape ends where m does. */
  ghost predicate Tailed(m: Entity, s: seq<Entity>) {
    exists k :: 0 <= k < |s| && s[k].End() == m.End() && Shape(s[k].kind) == Shape(m.kind)
  }

  ghost predicate AllHeaded(r: seq<Entity>, s: seq<Entity>) {
    forall i | 0 <= i < |r| :: Headed(r[i], s) && Tailed(r[i], s)
  }

  lemma {:induction false} CoalesceHeaded(out: seq<Entity>, g: seq<Entity>, s: seq<Entity>)
    requires AllHeaded(out, s) && AllHeaded(g, s)
    ensures AllHeaded(Coalesce(out, g), s)
  {
    if g != [] { CoalesceHeaded(out, g[..|g| - 1], s); }
  }

  lemma SelfHeaded(r: seq<Entity>, s: seq<Entity>)
    requires forall e | e in r :: e in s
    ensures AllHeaded(r, s)
  {
    forall i | 0 <= i < |r| ensures Headed(r[i], s) && Tailed(r[i], s) {
      assert r[i] in r && r[i] in s;
      var k :| 0 <= k < |s| && s[k] == r[i];
    }
  }

  lemma {:induction false} MergeShapesHeaded(s: seq<Entity>, shapes: seq<Kind>)
    ensures AllHeaded(MergeShapes(s, shapes), s)
  {
    hide AllHeaded;
    SelfHeaded([], s);
    if shapes == [] {
    } else {
      var front, last := shapes[..|shapes| - 1], shapes[|shapes| - 1];
      var g := StableSort(ByOffset, OfShape(s, last));
      MergeShapesHeaded(s, front);
      OfShapeLaws(s, last);
      SortLaws(ByOffset, OfShape(s, last));
      SelfHeaded(g, s);
      CoalesceHeaded(MergeShapes(s, front), g, s);
    }
  }

  lemma MergeHeaded(s: seq<Entity>)
    ensures AllHeaded(Merge(s), s)
  {
    if |s| < 2 {
      SelfHeaded(s, s);
    } else {
      var r := MergeShapes(s, Shapes(s));
      hide StableSort;
      hide MergeShapes;
      MergeShapesHeaded(s, Shapes(s));
      SortLaws(ByOffsetThenLength, r);
      forall i | 0 <= i < |Merge(s)| ensures Headed(Merge(s)[i], s) && Tailed(Merge(s)[i], s) {
        assert Merge(s)[i] in r;
      }
    }
  }

  /** An entity that matches one of s up to shape and starts under one of s of its
      very kind is in s. */
  lemma OneOfKind(s: seq<Entity>, i: nat, j: nat, m: Entity)
    requires Canonical(s) && i < |s| && j < |s| && m.length > 0
    requires s[i].kind == m.kind && s[i].Covers(m.offset) && Norm(s[j]) == Norm(m)
    ensures s[j] == m
  {
    hide Cover;
    if i < j { TwoCover(s, i, j, Shape(m.kind), m.offset); }
    if j < i { TwoCover(s, j, i, Shape(m.kind), m.offset); }
  }

  /** Two lists without repeats, up to shape, that hold each other's entities. */
  lemma SameEntities(a: seq<Entity>, b: seq<Entity>)
    requires Canonical(a) && Canonical(b) && multiset(Norms(a)) == multiset(Norms(b))
    requires forall e | e in a :: e in b
    ensures multiset(a) == multiset(b)
  {
    CanonicalIsDistinct(a);
    CanonicalIsDistinct(b);
    hide Canonical;
    forall e ensures multiset(a)[e] == multiset(b)[e] {
      CountDistinct(a, e);
      CountDistinct(b, e);
      if e in b {
        var j :| 0 <= j < |b| && b[j] == e;
        assert Norms(b)[j] in multiset(Norms(a)) && Norms(b)[j] in Norms(a);
        var i :| 0 <= i < |a| && Norms(a)[i] == Norms(b)[j];
        assert a[i] in b;
        var j' :| 0 <= j' < |b| && b[j'] == a[i];
        assert j' == j;
      }
    }
  }

  // ---- The loops ----

  /** The groups by shape, as MergeAdjacent builds them. */
  ghost predicate Grouped(s: seq<Entity>, order: seq<Kind>, groups: map<Kind, seq<Entity>>) {
    && order == Shapes(s)
    && (forall k :: k in groups <==> k in order)
    && (forall k | k in groups :: groups[k] == OfShape(s, k))
  }

  lemma {:induction false} UnseenIsEmpty(s: seq<Entity>, shape: Kind)
    requires shape !in Shapes(s)
    ensures OfShape(s, shape) == []
  {
    if s == [] {
    } else {
      UnseenIsEmpty(s[..|s| - 1], shape);
    }
  }

  lemma {:induction false} OfShapePush(s: seq<Entity>, e: Entity, shape: Kind)
    ensures OfShape(s + [e], shape) == if Shape(e.kind) == shape then OfShape(s, shape) + [e] else OfShape(s, shape)
  {
    assert (s + [e])[..|s|] == s;
  }

  lemma {:induction false} ShapesPush(s: seq<Entity>, e: Entity)
    ensures Shapes(s + [e]) == if Shape(e.kind) in Shapes(s) then Shapes(s) else Shapes(s) + [Shape(e.kind)]
  {
    assert (s + [e])[..|s|] == s;
  }

  lemma GroupStep(s: seq<Entity>, e: Entity, order: seq<Kind>, groups: map<Kind, seq<Entity>>)
    requires Grouped(s, order, groups)
    ensures var key := Shape(e.kind);
            var g := if key in groups then groups[key] else [];
            Grouped(s + [e], if key in groups then order else order + [key], groups[key := g + [e]])
  {
    hide OfShape;
    hide Shapes;
    hide Shape;
    var key := Shape(e.kind);
    if key !in groups { UnseenIsEmpty(s, key); }
    ShapesPush(s, e);
    forall k ensures OfShape(s + [e], k) == if k == key then OfShape(s, k) + [e] else OfShape(s, k) {
      OfShapePush(s, e, k);
    }
  }

  method Group(s: seq<Entity>) returns (order: seq<Kind>, groups: map<Kind, seq<Entity>>)
    ensures Grouped(s, order, groups)
  {
    hide Grouped;
    order, groups := [], map[];
    EmptyIsGrouped();
    assert s[..0] == [];
    for i := 0 to |s|
      invariant Grouped(s[..i], order, groups)
    {
      var key := Shape(s[i].kind);
      GroupStep(s[..i], s[i], order, groups);
      assert s[..i + 1] == s[..i] + [s[i]] && [] + [s[i]] == [s[i]];
      if key !in groups {
        order := order + [key];
        groups := groups[key := [s[i]]];
      } else {
        groups := groups[key := groups[key] + [s[i]]];
      }
    }
    assert s[..|s|] == s;
  }

  lemma EmptyIsGrouped()
    ensures Grouped([], [], map[])
  {}

  method MergeGroup(before: seq<Entity>, g: seq<Entity>) returns (out: seq<Entity>)
    ensures out == Coalesce(before, g)
  {
    out := before;
    for k := 0 to |g|
      invariant out == Coalesce(before, g[..k])
    {
      assert g[..k + 1][..k] == g[..k];
      var n := |out| - 1;
      if n >= 0 && Shape(out[n].kind) == Shape(g[k].kind) && out[n].offset + out[n].length == g[k].offset {
        out := out[n := out[n].(length := out[n].length + g[k].length)];
      } else {
        out := out + [g[k]];
      }
    }
    assert g[..|g|] == g;
  }

  method MergeAdjacent(s: seq<Entity>) returns (r: seq<Entity>)
    ensures r == Merge(s)
  {
    if |s| < 2 {
      return s;
    }
    var order, groups := Group(s);
    var out: seq<Entity> := [];
    for i := 0 to |order|
      invariant out == MergeShapes(s, order[..i])
    {
      assert order[..i + 1][..i] == order[..i] && order[i] in groups;
      out := MergeGroup(out, StableSort(ByOffset, groups[order[i]]));
    }
    assert order[..|order|] == order;
    r := StableSort(ByOffsetThenLength, out);
  }
}
