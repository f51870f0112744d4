/** Exactly when MergeAdjacent leaves contiguous entities of one shape, and exactly
    when it leaves an empty one, for any list whose entities of one shape do not
    overlap. Empty entities overlap nothing and may lie anywhere. */
module Contiguity {
  import opened Entities

  // ---- Order in the list ----

  /** Some a is listed before some b. */
  ghost predicate Before(s: seq<Entity>, a: Entity, b: Entity) {
    exists i, j :: 0 <= i < j < |s| && s[i] == a && s[j] == b
  }

  lemma BeforePush(s: seq<Entity>, x: Entity, a: Entity, b: Entity)
    ensures Before(s + [x], a, b) <==> Before(s, a, b) || (b == x && a in s)
  {
    var t := s + [x];
    if Before(t, a, b) {
      var i, j :| 0 <= i < j < |t| && t[i] == a && t[j] == b;
      assert s[i] == a;
      if j < |s| {
        assert s[j] == b;
      }
    }
    if Before(s, a, b) {
      var i, j :| 0 <= i < j < |s| && s[i] == a && s[j] == b;
      assert t[i] == a && t[j] == b;
    }
    if b == x && a in s {
      var i :| 0 <= i < |s| && s[i] == a;
      assert t[i] == a && t[|s|] == b;
    }
  }

  lemma {:induction false} InsertBefore(s: seq<Entity>, e: Entity, a: Entity, b: Entity)
    requires a.offset == b.offset
    ensures Before(Insert(ByOffset, s, e), a, b) <==> Before(s + [e], a, b)
  {
    hide Before;
    if s == [] || Le(ByOffset, s[|s| - 1], e) {
    } else {
      var front, last := s[..|s| - 1], s[|s| - 1];
      assert s == front + [last];
      InsertBefore(front, e, a, b);
      InsertPermutes(ByOffset, front, e);
      BeforePush(Insert(ByOffset, front, e), last, a, b);
      BeforePush(front, e, a, b);
      BeforePush(front, last, a, b);
      BeforePush(s, e, a, b);
    }
  }

  /** A stable sort keeps the order of entities that start together. */
  lemma {:induction false} SortBefore(s: seq<Entity>, a: Entity, b: Entity)
    requires a.offset == b.offset
    ensures Before(StableSort(ByOffset, s), a, b) <==> Before(s, a, b)
  {
    hide Before;
    if s == [] {
    } else {
      var front, last := s[..|s| - 1], s[|s| - 1];
      assert s == front + [last];
      SortBefore(front, a, b);
      SortLaws(ByOffset, front);
      InsertBefore(StableSort(ByOffset, front), last, a, b);
      BeforePush(StableSort(ByOffset, front), last, a, b);
      BeforePush(front, last, a, b);
    }
  }

  lemma {:induction false} ShapeBefore(s: seq<Entity>, shape: Kind, a: Entity, b: Entity)
    requires Shape(a.kind) == shape && Shape(b.kind) == shape
    ensures Before(OfShape(s, shape), a, b) <==> Before(s, a, b)
  {
    hide Before;
    if s == [] {
    } else {
      var front, last := s[..|s| - 1], s[|s| - 1];
      assert s == front + [last];
      ShapeBefore(front, shape, a, b);
      OfShapeLaws(front, shape);
      OfShapePush(front, last, shape);
      BeforePush(OfShape(front, shape), last, a, b);
      BeforePush(front, last, a, b);
    }
  }

  // ---- The entities of one shape, in the order they are merged ----

  ghost function Line(s: seq<Entity>, shape: Kind): seq<Entity> { StableSort(ByOffset, OfShape(s, shape)) }

  /** Sorted by offset, of one shape, and no two non-empty ones overlap. */
  ghost predicate InLine(g: seq<Entity>, shape: Kind) {
    && (forall i | 0 <= i < |g| :: Shape(g[i].kind) == shape)
    && (forall i, j | 0 <= i < j < |g| :: g[i].offset <= g[j].offset)
    && (forall i, j | 0 <= i < j < |g| && g[i].length > 0 && g[j].length > 0 :: g[i].End() <= g[j].offset)
  }

  lemma LineLaws(s: seq<Entity>, shape: Kind)
    requires Disjoint(s)
    ensures InLine(Line(s, shape), shape)
    ensures forall e :: e in Line(s, shape) <==> e in s && Shape(e.kind) == shape
  {
    var g := Line(s, shape);
    OfShapeLaws(s, shape);
    SortLaws(ByOffset, OfShape(s, shape));
    hide StableSort;
    hide OfShape;
    hide Cover;
    assert forall i | 0 <= i < |g| :: g[i] in g;
    forall x ensures Cover(g, shape, x) <= 1 {
      SortCovers(ByOffset, OfShape(s, shape), shape, x);
      ShapeCovers(s, shape, shape, x);
    }
    forall i, j | 0 <= i < j < |g| && g[i].length > 0 && g[j].length > 0 ensures g[i].End() <= g[j].offset {
      assert Le(ByOffset, g[i], g[j]);
      if g[i].End() > g[j].offset { TwoCover(g, i, j, shape, g[j].offset); }
    }
  }

  // ---- Runs ----

  /** Entity c is not contiguous with the one before it. */
  predicate Breaks(g: seq<Entity>, c: nat)
    requires c < |g|
  {
    c == 0 || g[c - 1].End() != g[c].offset
  }

  /** Where the runs of contiguous entities start. */
  ghost function Starts(g: seq<Entity>): seq<nat> {
    if g == [] then []
    else
      var before := Starts(g[..|g| - 1]);
      if Breaks(g, |g| - 1) then before + [|g| - 1] else before
  }

  /** Where run i ends, among n entities. */
  function StopIn(st: seq<nat>, n: nat, i: nat): int
    requires i < |st|
  {
    (if i + 1 < |st| then st[i + 1] else n) - 1
  }

  ghost function Stop(g: seq<Entity>, i: nat): int
    requires i < |Starts(g)|
  {
    StopIn(Starts(g), |g|, i)
  }

  lemma {:induction false} StartsLaws(g: seq<Entity>)
    ensures var st := Starts(g);
            && (forall i, j | 0 <= i < j < |st| :: st[i] < st[j])
            && (forall i | 0 <= i < |st| :: st[i] < |g| && Breaks(g, st[i]))
            && (forall c | 0 <= c < |g| && Breaks(g, c) :: c in st)
            && (g != [] ==> st != [])
  {
    if g == [] {
    } else {
      var front := g[..|g| - 1];
      StartsLaws(front);
      var st, before := Starts(g), Starts(front);
      assert forall c | 0 <= c < |front| :: Breaks(front, c) <==> Breaks(g, c);
      assert forall c | c in before :: c in st;
    }
  }

  /** r holds one entity per run of g, from its first start to its last end. */
  ghost predicate Rendered(r: seq<Entity>, g: seq<Entity>, st: seq<nat>, shape: Kind) {
    && |r| == |st| && (forall i | 0 <= i < |r| :: Shape(r[i].kind) == shape)
    && (forall i | 0 <= i < |st| :: st[i] <= StopIn(st, |g|, i) < |g|)
    && (forall i | 0 <= i < |r| :: r[i].offset == g[st[i]].offset && r[i].End() == g[StopIn(st, |g|, i)].End())
    && (g == [] <==> r == [])
  }

  lemma RenderNew(r: seq<Entity>, g: seq<Entity>, st: seq<nat>, shape: Kind, e: Entity)
    requires Rendered(r, g, st, shape) && Shape(e.kind) == shape
    ensures Rendered(r + [e], g + [e], st + [|g|], shape)
  {
    var st' := st + [|g|];
    assert forall i | 0 <= i < |st| :: st'[i] == st[i] && StopIn(st', |g| + 1, i) == StopIn(st, |g|, i);
  }

  lemma RenderJoined(r: seq<Entity>, g: seq<Entity>, st: seq<nat>, shape: Kind, e: Entity)
    requires Rendered(r, g, st, shape) && r != [] && r[|r| - 1].End() == e.offset
    ensures var l := r[|r| - 1]; Rendered(r[|r| - 1 := l.(length := l.length + e.length)], g + [e], st, shape)
  {
    assert forall i | 0 <= i < |st| - 1 :: StopIn(st, |g| + 1, i) == StopIn(st, |g|, i);
    assert StopIn(st, |g| + 1, |st| - 1) == |g|;
  }

  lemma RenderEnd(r: seq<Entity>, g: seq<Entity>, st: seq<nat>, shape: Kind)
    requires Rendered(r, g, st, shape)
    ensures if g == [] then r == [] else r != [] && r[|r| - 1].End() == g[|g| - 1].End()
    ensures forall i | 0 <= i < |r| :: Shape(r[i].kind) == shape
  {
    if g != [] {
      assert StopIn(st, |g|, |st| - 1) == |g| - 1;
    }
  }

  lemma {:induction false} Pushes(front: seq<Entity>, e: Entity)
    ensures var g := front + [e];
            && Coalesce([], g) == Join(Coalesce([], front), e)
            && Breaks(g, |front|) == (front == [] || front[|front| - 1].End() != e.offset)
            && Starts(g) == if Breaks(g, |front|) then Starts(front) + [|front|] else Starts(front)
  {
    assert (front + [e])[..|front|] == front;
  }

  /** Merging one line gives one entity per run. */
  lemma {:induction false} CoalesceRuns(g: seq<Entity>, shape: Kind)
    requires forall i | 0 <= i < |g| :: Shape(g[i].kind) == shape
    ensures Rendered(Coalesce([], g), g, Starts(g), shape)
  {
    hide Coalesce;
    hide Starts;
    hide Rendered;
    if g == [] {
      NothingRendered(shape);
    } else {
      var front, e := g[..|g| - 1], g[|g| - 1];
      CoalesceRuns(front, shape);
      var r, st := Coalesce([], front), Starts(front);
      assert g == front + [e];
      Pushes(front, e);
      RenderEnd(r, front, st, shape);
      if Breaks(g, |g| - 1) { RenderNew(r, front, st, shape, e); } else { RenderJoined(r, front, st, shape, e); }
    }
  }

  lemma NothingRendered(shape: Kind)
    ensures Rendered(Coalesce([], []), [], Starts([]), shape)
  {}

  // ---- Contiguous entities of one line ----

  /** Two different runs touch. */
  ghost predicate Touch(g: seq<Entity>) {
    exists i, j :: 0 <= i < |Starts(g)| && 0 <= j < |Starts(g)| && i != j && Meets(g, i, j)
  }

  ghost predicate Meets(g: seq<Entity>, i: nat, j: nat)
    requires i < |Starts(g)| && j < |Starts(g)|
  {
    var b, a := Stop(g, i), Starts(g)[j];
    0 <= b < |g| && a < |g| && g[b].End() == g[a].offset
  }

  /** A non-empty p, an m after it that starts before it ends, and a k that starts
      where it ends. */
  ghost predicate Interrupted(g: seq<Entity>) {
    exists p, m, k :: 0 <= p < m < k < |g| && Interrupts(g, p, m, k)
  }

  predicate Interrupts(g: seq<Entity>, p: nat, m: nat, k: nat)
    requires p < m < k < |g|
  {
    g[p].length > 0 && g[m].offset < g[p].End() == g[k].offset
  }

  /** An empty m after a non-empty n that starts with it, where nothing non-empty
      ends. */
  ghost predicate Trailed(g: seq<Entity>) {
    exists n, m :: 0 <= n < m < |g| && Trails(g, n, m) && !EndsAt(g, g[n].offset)
  }

  predicate Trails(g: seq<Entity>, n: nat, m: nat)
    requires n < m < |g|
  {
    g[n].length > 0 && g[m].length == 0 && g[n].offset == g[m].offset
  }

  ghost predicate EndsAt(g: seq<Entity>, y: int) { exists q :: 0 <= q < |g| && g[q].length > 0 && g[q].End() == y }

  /** What Starts says about run i: it starts at a break, ends before the next one and
      has none inside. */
  lemma {:induction false} RunLaws(g: seq<Entity>, i: nat)
    requires i < |Starts(g)|
    ensures var a, b := Starts(g)[i], Stop(g, i);
            && a <= b < |g| && Breaks(g, a) && (b + 1 < |g| ==> Breaks(g, b + 1))
            && forall c | a < c <= b :: !Breaks(g, c)
  {
    StartsLaws(g);
    var st := Starts(g);
    hide Starts;
    var a, b := st[i], Stop(g, i);
    if i + 1 < |st| {
      assert st[i] < st[i + 1];
    }
    forall k | 0 <= k < |st| ensures st[k] <= a || st[k] > b {
      if k > i + 1 {
        assert st[i + 1] < st[k];
      }
    }
  }

  lemma RunAt(g: seq<Entity>, c: nat) returns (i: nat)
    requires c < |g| && Breaks(g, c)
    ensures i < |Starts(g)| && Starts(g)[i] == c
  {
    StartsLaws(g);
    hide Starts;
    i :| 0 <= i < |Starts(g)| && Starts(g)[i] == c;
  }

  /** A run that ends at b. */
  lemma {:induction false} RunTo(g: seq<Entity>, c: nat, b: nat) returns (i: nat)
    requires c <= b < |g| && (b + 1 < |g| ==> Breaks(g, b + 1)) && forall k | c < k <= b :: !Breaks(g, k)
    ensures i < |Starts(g)| && Stop(g, i) == b
    decreases c
  {
    if Breaks(g, c) {
      i := RunAt(g, c);
      RunLaws(g, i);
      hide Starts;
    } else {
      i := RunTo(g, c - 1, b);
    }
  }

  lemma {:induction false} FirstAt(g: seq<Entity>, k: nat) returns (f: nat)
    requires k < |g| && forall i, j | 0 <= i < j < |g| :: g[i].offset <= g[j].offset
    ensures f <= k && (forall i | f <= i <= k :: g[i].offset == g[k].offset)
    ensures f > 0 ==> g[f - 1].offset < g[k].offset
  {
    if k == 0 || g[k - 1].offset < g[k].offset {
      f := k;
    } else {
      f := FirstAt(g, k - 1);
    }
  }

  lemma TouchAhead(g: seq<Entity>, shape: Kind, b: nat, a: nat)
    requires InLine(g, shape) && b < a < |g| && Breaks(g, b + 1) && g[b].End() == g[a].offset
    ensures Interrupted(g)
  {
    assert a != b + 1;
    assert g[b].offset <= g[b + 1].offset <= g[a].offset;
    assert Interrupts(g, b, b + 1, a);
  }

  lemma TouchBack(g: seq<Entity>, shape: Kind, a: nat, c: nat, b: nat)
    requires InLine(g, shape) && a < c <= b < |g| && Breaks(g, a) && Breaks(g, c) && g[b].End() == g[a].offset
    ensures Interrupted(g) || Trailed(g)
  {
    var y := g[a].offset;
    assert y <= g[c - 1].offset <= g[c].offset <= g[b].offset;
    assert Trails(g, c - 1, b);
    if EndsAt(g, y) {
      var q :| 0 <= q < |g| && g[q].length > 0 && g[q].End() == y;
      assert q < a;
      assert q < a - 1 && g[a - 1].offset <= y;
      assert g[a - 1].offset < y;
      assert Interrupts(g, q, a - 1, a);
    }
  }

  /** Touching runs come from an interruption or a trailing empty entity. */
  lemma {:induction false} TouchCauses(g: seq<Entity>, shape: Kind, i: nat, j: nat)
    requires InLine(g, shape) && i < |Starts(g)| && j < |Starts(g)| && i != j && Meets(g, i, j)
    ensures Interrupted(g) || Trailed(g)
  {
    hide Starts;
    hide Interrupted;
    hide Trailed;
    hide InLine;
    RunLaws(g, i);
    RunLaws(g, j);
    StartsLaws(g);
    var b, a := Stop(g, i), Starts(g)[j];
    if i < j {
      TouchAhead(g, shape, b, a);
    } else {
      TouchBack(g, shape, a, Starts(g)[i], b);
    }
  }

  lemma InterruptedTouches(g: seq<Entity>, shape: Kind)
    requires InLine(g, shape) && Interrupted(g)
    ensures Touch(g)
  {
    var p, m, k :| 0 <= p < m < k < |g| && Interrupts(g, p, m, k);
    var y := g[k].offset;
    assert Breaks(g, p + 1);
    var i := RunTo(g, p, p);
    var f := FirstAt(g, k);
    assert f > m;
    assert Breaks(g, f);
    var j := RunAt(g, f);
    hide Starts;
    hide Stop;
    assert f != p;
    RunLawsStart(g, i);
    assert Meets(g, i, j);
  }

  lemma {:induction false} RunLawsStart(g: seq<Entity>, i: nat)
    requires i < |Starts(g)|
    ensures Starts(g)[i] <= Stop(g, i)
  {
    RunLaws(g, i);
  }

  lemma TrailedTouches(g: seq<Entity>, shape: Kind)
    requires InLine(g, shape) && Trailed(g)
    ensures Touch(g)
  {
    var n, m :| 0 <= n < m < |g| && Trails(g, n, m) && !EndsAt(g, g[n].offset);
    var f := FirstAt(g, n);
    assert Breaks(g, f);
    assert Breaks(g, n + 1);
    var i := RunAt(g, n + 1);
    var j := RunAt(g, f);
    EmptyRun(g, shape, n, i);
    hide Starts;
    hide Stop;
    assert Meets(g, i, j);
  }

  /** The run behind a non-empty n, at the same start, is empty. */
  lemma {:induction false} EmptyRun(g: seq<Entity>, shape: Kind, n: nat, i: nat)
    requires InLine(g, shape) && n + 1 < |g| && g[n].length > 0 && g[n + 1].offset == g[n].offset
    requires i < |Starts(g)| && Starts(g)[i] == n + 1
    ensures var b := Stop(g, i); 0 <= b < |g| && g[b].offset == g[n].offset && g[b].length == 0
  {
    RunLaws(g, i);
    hide Starts;
    StaysAt(g, shape, n + 1, Stop(g, i));
  }

  /** Without a break, empty entities that start together are all there is. */
  lemma {:induction false} StaysAt(g: seq<Entity>, shape: Kind, a: nat, b: nat)
    requires InLine(g, shape) && a <= b < |g| && (forall c | a < c <= b :: !Breaks(g, c)) && g[a].length == 0
    requires forall c | 0 <= c < |g| && c > a && g[c].offset == g[a].offset :: g[c].length == 0
    ensures g[b].offset == g[a].offset && g[b].length == 0
  {
    if a == b {
    } else {
      StaysAt(g, shape, a, b - 1);
      assert !Breaks(g, b);
    }
  }

  /** Two runs of a line touch exactly when it is interrupted or trailed. */
  lemma TouchIff(g: seq<Entity>, shape: Kind)
    requires InLine(g, shape)
    ensures Touch(g) <==> Interrupted(g) || Trailed(g)
  {
    if Touch(g) {
      var i, j :| 0 <= i < |Starts(g)| && 0 <= j < |Starts(g)| && i != j && Meets(g, i, j);
      TouchCauses(g, shape, i, j);
    }
    if Interrupted(g) { InterruptedTouches(g, shape); }
    if Trailed(g) { TrailedTouches(g, shape); }
  }

  // ---- All lines together ----

  lemma {:induction false} RenderedApart(r: seq<Entity>, g: seq<Entity>, shape: Kind)
    requires Rendered(r, g, Starts(g), shape)
    ensures Apart(r) <==> !Touch(g)
  {
    hide Starts;
    if Touch(g) {
      var i, j :| 0 <= i < |Starts(g)| && 0 <= j < |Starts(g)| && i != j && Meets(g, i, j);
      assert r[i].End() == r[j].offset && Shape(r[i].kind) == Shape(r[j].kind);
    }
    if !Apart(r) {
      var i, j :| 0 <= i < |r| && 0 <= j < |r| && i != j && Shape(r[i].kind) == Shape(r[j].kind)
        && r[i].End() == r[j].offset;
      assert Meets(g, i, j);
    }
  }

  lemma {:induction false} LineApart(g: seq<Entity>, shape: Kind)
    requires InLine(g, shape)
    ensures Apart(Coalesce([], g)) <==> !Interrupted(g) && !Trailed(g)
    ensures forall i | 0 <= i < |Coalesce([], g)| :: Shape(Coalesce([], g)[i].kind) == shape
  {
    hide Coalesce;
    hide Starts;
    hide Touch;
    hide Interrupted;
    hide Trailed;
    hide Apart;
    TouchIff(g, shape);
    CoalesceRuns(g, shape);
    RenderedApart(Coalesce([], g), g, shape);
    RenderEnd(Coalesce([], g), g, Starts(g), shape);
  }

  lemma {:induction false} CoalesceSplits(out: seq<Entity>, g: seq<Entity>, shape: Kind)
    requires forall i | 0 <= i < |out| :: Shape(out[i].kind) != shape
    requires forall i | 0 <= i < |g| :: Shape(g[i].kind) == shape
    ensures Coalesce(out, g) == out + Coalesce([], g)
  {
    if g == [] {
      assert out + [] == out;
    } else {
      var front, e := g[..|g| - 1], g[|g| - 1];
      CoalesceSplits(out, front, shape);
      CoalesceRuns(front, shape);
      RenderEnd(Coalesce([], front), front, Starts(front), shape);
      JoinSplits(out, Coalesce([], front), e);
    }
  }

  lemma JoinSplits(out: seq<Entity>, r: seq<Entity>, e: Entity)
    requires r != [] || out == [] || Shape(out[|out| - 1].kind) != Shape(e.kind)
    ensures Join(out + r, e) == out + Join(r, e)
  {
    if r == [] {
      assert out + [] == out;
    }
  }

  lemma ConcatApart(a: seq<Entity>, b: seq<Entity>, shape: Kind)
    requires forall i | 0 <= i < |a| :: Shape(a[i].kind) != shape
    requires forall i | 0 <= i < |b| :: Shape(b[i].kind) == shape
    ensures Apart(a + b) <==> Apart(a) && Apart(b)
  {
    var c := a + b;
    if Apart(c) {
      forall i, j | 0 <= i < |a| && 0 <= j < |a| && i != j && Shape(a[i].kind) == Shape(a[j].kind)
        ensures a[i].End() != a[j].offset
      {
        assert c[i] == a[i] && c[j] == a[j];
      }
      forall i, j | 0 <= i < |b| && 0 <= j < |b| && i != j && Shape(b[i].kind) == Shape(b[j].kind)
        ensures b[i].End() != b[j].offset
      {
        assert c[|a| + i] == b[i] && c[|a| + j] == b[j];
      }
    }
  }

  /** Nothing of this shape is contiguous after merging. */
  ghost predicate LineIsApart(s: seq<Entity>, shape: Kind) { Apart(Coalesce([], Line(s, shape))) }

  lemma {:induction false} ShapesApart(s: seq<Entity>, shapes: seq<Kind>)
    requires Disjoint(s) && NoRepeats(shapes)
    ensures Apart(MergeShapes(s, shapes)) <==> forall k | k in shapes :: LineIsApart(s, k)
    ensures forall i | 0 <= i < |MergeShapes(s, shapes)| :: Shape(MergeShapes(s, shapes)[i].kind) in shapes
  {
    hide Apart;
    hide Coalesce;
    hide StableSort;
    if shapes == [] {
      NothingApart();
    } else {
      var front, last := shapes[..|shapes| - 1], shapes[|shapes| - 1];
      var out, g := MergeShapes(s, front), Line(s, last);
      ShapesApart(s, front);
      LineLaws(s, last);
      LineApart(g, last);
      assert last !in front && shapes == front + [last];
      CoalesceSplits(out, g, last);
      ConcatApart(out, Coalesce([], g), last);
      assert MergeShapes(s, shapes) == out + Coalesce([], g);
      assert LineIsApart(s, last) <==> Apart(Coalesce([], g));
      hide LineIsApart;
      assert forall k :: k in shapes <==> k in front || k == last;
    }
  }

  lemma NothingApart()
    ensures Apart([])
  {}

  // ---- Sorting does not matter ----

  /** Two different copies: a ends where b starts. */
  ghost predicate TouchIn(s: seq<Entity>, a: Entity, b: Entity) {
    a in s && b in s && Shape(a.kind) == Shape(b.kind) && a.End() == b.offset && (a != b || multiset(s)[a] >= 2)
  }

  lemma TwoCopies(s: seq<Entity>, i: nat, j: nat)
    requires i < j < |s| && s[i] == s[j]
    ensures multiset(s)[s[i]] >= 2
  {
    assert s == s[..j] + s[j..];
    assert s[i] in s[..j] && s[j] in s[j..];
    assert multiset(s) == multiset(s[..j]) + multiset(s[j..]);
  }

  lemma CopiesApart(s: seq<Entity>, a: Entity) returns (i: nat, j: nat)
    requires multiset(s)[a] >= 2
    ensures i < j < |s| && s[i] == a && s[j] == a
  {
    assert a in multiset(s) && a in s;
    i :| 0 <= i < |s| && s[i] == a;
    var rest := s[..i] + s[i + 1..];
    assert s == s[..i] + [s[i]] + s[i + 1..];
    assert multiset(s) == multiset(rest) + multiset{a};
    assert a in multiset(rest) && a in rest;
    var k :| 0 <= k < |rest| && rest[k] == a;
    if k < i {
      assert s[k] == a;
      i, j := k, i;
    } else {
      assert s[k + 1] == a;
      j := k + 1;
    }
  }

  lemma ApartIff(s: seq<Entity>)
    ensures Apart(s) <==> forall a, b :: !TouchIn(s, a, b)
  {
    if a, b :| TouchIn(s, a, b) {
      if a == b {
        var i, j := CopiesApart(s, a);
        assert !Apart(s);
      } else {
        var i :| 0 <= i < |s| && s[i] == a;
        var j :| 0 <= j < |s| && s[j] == b;
        assert !Apart(s);
      }
    }
    if !Apart(s) {
      var i, j :| 0 <= i < |s| && 0 <= j < |s| && i != j && Shape(s[i].kind) == Shape(s[j].kind)
        && s[i].End() == s[j].offset;
      if s[i] == s[j] { TwoCopies(s, if i < j then i else j, if i < j then j else i); }
      assert TouchIn(s, s[i], s[j]);
    }
  }

  lemma {:induction false} SortApart(o: Order, s: seq<Entity>)
    ensures Apart(StableSort(o, s)) <==> Apart(s)
  {
    SortLaws(o, s);
    ApartIff(s);
    ApartIff(StableSort(o, s));
    hide StableSort;
    hide Apart;
    assert forall a, b :: TouchIn(s, a, b) <==> TouchIn(StableSort(o, s), a, b);
  }

  // ---- Read off the list ----

  /** The empty e comes after the non-empty p, before p ends: it starts inside p, or
      with p and later in the list. */
  ghost predicate Shades(s: seq<Entity>, p: Entity, e: Entity) {
    && p in s && e in s && Shape(p.kind) == Shape(e.kind) && p.length > 0 && e.length == 0
    && (p.offset < e.offset < p.End() || (e.offset == p.offset && Before(s, p, e)))
  }

  ghost predicate NonEmptyEnds(s: seq<Entity>, shape: Kind, y: int) {
    exists q :: q in s && Shape(q.kind) == shape && q.length > 0 && q.End() == y
  }

  /** A shaded entity that something continues. */
  ghost predicate Continued(s: seq<Entity>, shape: Kind) {
    exists p, e, q :: Shades(s, p, e) && q in s && Shape(p.kind) == shape == Shape(q.kind) && q.offset == p.End()
  }

  /** An entity shaded at its very start, where no non-empty one ends. */
  ghost predicate Fronted(s: seq<Entity>, shape: Kind) {
    exists p, e :: && Shades(s, p, e) && Shape(p.kind) == shape && e.offset == p.offset
                   && !NonEmptyEnds(s, shape, p.offset)
  }

  lemma LineBefore(s: seq<Entity>, shape: Kind, a: Entity, b: Entity)
    requires a.offset == b.offset && Shape(a.kind) == shape && Shape(b.kind) == shape
    ensures Before(Line(s, shape), a, b) <==> Before(s, a, b)
  {
    hide Before;
    SortBefore(OfShape(s, shape), a, b);
    ShapeBefore(s, shape, a, b);
  }

  /** Shading is order in the line. */
  lemma ShadesAt(s: seq<Entity>, shape: Kind, m: nat, p: nat)
    requires Disjoint(s) && p < m < |Line(s, shape)|
    requires var g := Line(s, shape); g[p].length > 0 && g[m].offset < g[p].End()
    ensures Shades(s, Line(s, shape)[p], Line(s, shape)[m])
  {
    LineLaws(s, shape);
    var g := Line(s, shape);
    hide Line;
    hide Disjoint;
    assert g[p] in g && g[m] in g && g[p].offset <= g[m].offset;
    if g[p].offset == g[m].offset {
      assert Before(g, g[p], g[m]);
      LineBefore(s, shape, g[p], g[m]);
    }
  }

  lemma ShadesIndices(s: seq<Entity>, shape: Kind, a: Entity, e: Entity) returns (p: nat, m: nat)
    requires Disjoint(s) && Shades(s, a, e) && Shape(a.kind) == shape
    ensures p < m < |Line(s, shape)| && Line(s, shape)[p] == a && Line(s, shape)[m] == e
  {
    LineLaws(s, shape);
    var g := Line(s, shape);
    hide Line;
    hide Disjoint;
    if a.offset == e.offset {
      LineBefore(s, shape, a, e);
      p, m :| 0 <= p < m < |g| && g[p] == a && g[m] == e;
    } else {
      p :| 0 <= p < |g| && g[p] == a;
      m :| 0 <= m < |g| && g[m] == e;
    }
  }

  lemma InterruptedIsContinued(s: seq<Entity>, shape: Kind)
    requires Disjoint(s) && Interrupted(Line(s, shape))
    ensures Continued(s, shape)
  {
    hide Line;
    hide Disjoint;
    hide Shades;
    LineLaws(s, shape);
    var g := Line(s, shape);
    var p, m, k :| 0 <= p < m < k < |g| && Interrupts(g, p, m, k);
    ShadesAt(s, shape, m, p);
    assert g[p] in g && g[k] in g;
  }

  lemma ContinuedIsInterrupted(s: seq<Entity>, shape: Kind)
    requires Disjoint(s) && Continued(s, shape)
    ensures Interrupted(Line(s, shape))
  {
    hide Line;
    hide Disjoint;
    hide Shades;
    LineLaws(s, shape);
    var g := Line(s, shape);
    var a, e, q :| Shades(s, a, e) && q in s && Shape(a.kind) == shape == Shape(q.kind) && q.offset == a.End();
    var p, m := ShadesIndices(s, shape, a, e);
    ShadesBound(s, a, e);
    var k :| 0 <= k < |g| && g[k] == q;
    assert k > m;
    assert Interrupts(g, p, m, k);
  }

  lemma ContinuedIff(s: seq<Entity>, shape: Kind)
    requires Disjoint(s)
    ensures Continued(s, shape) <==> Interrupted(Line(s, shape))
  {
    hide Continued;
    hide Interrupted;
    hide Disjoint;
    if Interrupted(Line(s, shape)) { InterruptedIsContinued(s, shape); }
    if Continued(s, shape) { ContinuedIsInterrupted(s, shape); }
  }

  lemma ShadesBound(s: seq<Entity>, p: Entity, e: Entity)
    requires Shades(s, p, e)
    ensures p.length > 0 && e.length == 0 && p.offset <= e.offset < p.End() && Shape(p.kind) == Shape(e.kind)
  {}

  lemma EndsIff(s: seq<Entity>, shape: Kind, y: int)
    requires Disjoint(s)
    ensures NonEmptyEnds(s, shape, y) <==> EndsAt(Line(s, shape), y)
  {
    LineLaws(s, shape);
    var g := Line(s, shape);
    hide Line;
    hide Disjoint;
    if NonEmptyEnds(s, shape, y) {
      var q :| q in s && Shape(q.kind) == shape && q.length > 0 && q.End() == y;
      var k :| 0 <= k < |g| && g[k] == q;
    }
    if EndsAt(g, y) {
      var k :| 0 <= k < |g| && g[k].length > 0 && g[k].End() == y;
      assert g[k] in g;
    }
  }

  lemma FrontedIff(s: seq<Entity>, shape: Kind)
    requires Disjoint(s)
    ensures Fronted(s, shape) <==> Trailed(Line(s, shape))
  {
    LineLaws(s, shape);
    var g := Line(s, shape);
    hide Line;
    hide Disjoint;
    hide Shades;
    hide EndsAt;
    hide NonEmptyEnds;
    if Trailed(g) {
      var n, m :| 0 <= n < m < |g| && Trails(g, n, m) && !EndsAt(g, g[n].offset);
      ShadesAt(s, shape, m, n);
      EndsIff(s, shape, g[n].offset);
      assert g[n] in g;
    }
    if Fronted(s, shape) {
      var a, e :| && Shades(s, a, e) && Shape(a.kind) == shape && e.offset == a.offset
                  && !NonEmptyEnds(s, shape, a.offset);
      var n, m := ShadesIndices(s, shape, a, e);
      ShadesBound(s, a, e);
      EndsIff(s, shape, a.offset);
      assert Trails(g, n, m);
    }
  }

  lemma LineIsApartIff(s: seq<Entity>, shape: Kind)
    requires Disjoint(s)
    ensures LineIsApart(s, shape) <==> !Continued(s, shape) && !Fronted(s, shape)
  {
    hide Continued;
    hide Fronted;
    LineLaws(s, shape);
    LineApart(Line(s, shape), shape);
    ContinuedIff(s, shape);
    FrontedIff(s, shape);
  }

  /** On any list whose entities of one shape do not overlap, MergeAdjacent leaves two
      contiguous entities of a shape if and only if an empty one shades a non-empty
      one that is continued, or fronts one where no non-empty one ends. */
  lemma MergeApartIff(s: seq<Entity>)
    requires Disjoint(s)
    ensures Apart(Merge(s)) <==> forall shape :: !Continued(s, shape) && !Fronted(s, shape)
  {
    hide Continued;
    hide Fronted;
    hide Apart;
    hide StableSort;
    hide MergeShapes;
    forall shape ensures LineIsApart(s, shape) <==> !Continued(s, shape) && !Fronted(s, shape) {
      LineIsApartIff(s, shape);
    }
    hide LineIsApart;
    if |s| < 2 {
      ShortIsApart(s);
    } else {
      ShapesLaws(s);
      ShapesApart(s, Shapes(s));
      SortApart(ByOffsetThenLength, MergeShapes(s, Shapes(s)));
      forall shape | shape !in Shapes(s) ensures !Continued(s, shape) && !Fronted(s, shape) { UnseenIsClean(s, shape); }
    }
  }

  lemma ShortIsApart(s: seq<Entity>)
    requires |s| < 2
    ensures Apart(s) && forall shape :: !Continued(s, shape) && !Fronted(s, shape)
  {
    forall p, e ensures !Shades(s, p, e) {}
  }

  lemma UnseenIsClean(s: seq<Entity>, shape: Kind)
    requires forall e | e in s :: Shape(e.kind) != shape
    ensures !Continued(s, shape) && !Fronted(s, shape)
  {}

  /** So an empty entity listed after a longer one that starts with it stays contiguous
      with it. */
  lemma EmptyStaysContiguous(a: Entity, b: Entity)
    requires a.kind == b.kind && a.length > 0 && b.length == 0 && a.offset == b.offset
    ensures Disjoint([a, b]) && !Apart(Merge([a, b]))
  {
    hide Merge;
    var s := [a, b];
    forall shape, x ensures Cover(s, shape, x) <= 1 {
      assert [a] + [b] == s && [] + [a] == [a];
      CoverPush([a], b, shape, x);
      CoverPush([], a, shape, x);
    }
    hide Cover;
    assert s[0] == a && s[1] == b;
    assert Shades(s, a, b);
    assert Fronted(s, Shape(a.kind));
    MergeApartIff(s);
  }

  // ---- Which empty entities stay ----

  ghost predicate HasEmpty(s: seq<Entity>, shape: Kind, x: int) {
    exists m :: m in s && Shape(m.kind) == shape && m.offset == x && m.length == 0
  }

  ghost predicate StartsAt(g: seq<Entity>, x: int) { exists q :: 0 <= q < |g| && g[q].length > 0 && g[q].offset == x }

  /** The last entity before x is a non-empty one that ends there. */
  ghost predicate Held(g: seq<Entity>, x: int) {
    exists p :: 0 <= p < |g| && g[p].length > 0 && g[p].End() == x && forall m | p < m < |g| :: g[m].offset >= x
  }

  predicate EmptyAt(g: seq<Entity>, m: nat, x: int)
    requires m < |g|
  {
    g[m].offset == x && g[m].length == 0
  }

  ghost predicate Stranded(g: seq<Entity>, x: int) {
    || (exists n, m :: 0 <= n < m < |g| && Trails(g, n, m) && g[n].offset == x)
    || (!StartsAt(g, x) && !Held(g, x) && exists m :: 0 <= m < |g| && EmptyAt(g, m, x))
  }

  /** Run i of the line is empty and lies at x. */
  ghost predicate EmptyRunAt(g: seq<Entity>, i: nat, x: int)
    requires i < |Starts(g)|
  {
    var a, b := Starts(g)[i], Stop(g, i);
    a < |g| && 0 <= b < |g| && g[a].offset == x && g[b].End() == x
  }

  lemma {:induction false} EmptyThroughout(g: seq<Entity>, shape: Kind, a: nat, b: nat, x: int)
    requires InLine(g, shape) && a <= b < |g| && (forall c | a < c <= b :: !Breaks(g, c))
    requires g[a].offset == x && g[b].End() == x
    ensures forall c | a <= c <= b :: EmptyAt(g, c, x)
  {
    if a == b {
    } else {
      assert g[a].offset <= g[b].offset;
      assert !Breaks(g, b) && g[b - 1].End() == g[b].offset;
      EmptyThroughout(g, shape, a, b - 1, x);
    }
  }

  lemma {:induction false} EmptyRunIsStranded(g: seq<Entity>, shape: Kind, i: nat, x: int)
    requires InLine(g, shape) && i < |Starts(g)| && EmptyRunAt(g, i, x)
    ensures Stranded(g, x)
  {
    hide Starts;
    RunLaws(g, i);
    var a, b := Starts(g)[i], Stop(g, i);
    EmptyThroughout(g, shape, a, b, x);
    assert EmptyAt(g, a, x);
    if StartsAt(g, x) {
      var n :| 0 <= n < |g| && g[n].length > 0 && g[n].offset == x;
      assert a <= n <= b ==> EmptyAt(g, n, x);
      assert Trails(g, n, a);
    }
  }

  lemma TrailingRun(g: seq<Entity>, shape: Kind, n: nat, m: nat) returns (i: nat)
    requires InLine(g, shape) && n < m < |g| && Trails(g, n, m)
    ensures i < |Starts(g)| && EmptyRunAt(g, i, g[n].offset)
  {
    hide Starts;
    assert g[n].offset <= g[n + 1].offset <= g[m].offset;
    assert Breaks(g, n + 1);
    i := RunAt(g, n + 1);
    EmptyRun(g, shape, n, i);
  }

  lemma FirstBreaks(g: seq<Entity>, shape: Kind, m: nat, f: nat)
    requires InLine(g, shape) && f <= m < |g| && EmptyAt(g, m, g[f].offset) && !Held(g, g[f].offset)
    requires f > 0 ==> g[f - 1].offset < g[f].offset
    ensures Breaks(g, f)
  {}

  lemma LoneRun(g: seq<Entity>, shape: Kind, m: nat, x: int) returns (i: nat)
    requires InLine(g, shape) && !StartsAt(g, x) && !Held(g, x) && m < |g| && EmptyAt(g, m, x)
    ensures i < |Starts(g)| && EmptyRunAt(g, i, x)
  {
    hide Starts;
    var f := FirstAt(g, m);
    FirstBreaks(g, shape, m, f);
    hide Held;
    i := RunAt(g, f);
    RunLaws(g, i);
    assert forall c | 0 <= c < |g| && g[c].offset == x :: g[c].length == 0;
    StaysAt(g, shape, f, Stop(g, i));
  }

  lemma StrandedRun(g: seq<Entity>, shape: Kind, x: int) returns (i: nat)
    requires InLine(g, shape) && Stranded(g, x)
    ensures i < |Starts(g)| && EmptyRunAt(g, i, x)
  {
    hide Starts;
    hide EmptyRunAt;
    hide StartsAt;
    hide Held;
    hide InLine;
    if n, m :| 0 <= n < m < |g| && Trails(g, n, m) && g[n].offset == x {
      i := TrailingRun(g, shape, n, m);
    } else {
      var m :| 0 <= m < |g| && EmptyAt(g, m, x);
      i := LoneRun(g, shape, m, x);
    }
  }

  lemma {:induction false} RenderedEmpty(r: seq<Entity>, g: seq<Entity>, shape: Kind, i: nat, x: int)
    requires Rendered(r, g, Starts(g), shape) && i < |r|
    ensures EmptyRunAt(g, i, x) <==> Shape(r[i].kind) == shape && r[i].offset == x && r[i].length == 0
  {
    hide Starts;
  }

  lemma {:induction false} LineEmptyIff(g: seq<Entity>, shape: Kind, x: int)
    requires InLine(g, shape)
    ensures HasEmpty(Coalesce([], g), shape, x) <==> Stranded(g, x)
  {
    hide Coalesce;
    hide Starts;
    hide Stranded;
    hide EmptyRunAt;
    CoalesceRuns(g, shape);
    var r := Coalesce([], g);
    assert |r| == |Starts(g)|;
    if HasEmpty(r, shape, x) {
      var e :| e in r && Shape(e.kind) == shape && e.offset == x && e.length == 0;
      var i :| 0 <= i < |r| && r[i] == e;
      RenderedEmpty(r, g, shape, i, x);
      EmptyRunIsStranded(g, shape, i, x);
    }
    if Stranded(g, x) {
      var i := StrandedRun(g, shape, x);
      RenderedEmpty(r, g, shape, i, x);
      assert r[i] in r;
    }
  }

  /** The empty e stays: it follows a non-empty one that starts with it; or no non-empty
      one starts there, and each that ends there is shaded. */
  ghost predicate Remains(s: seq<Entity>, e: Entity) {
    || (exists n :: Shades(s, n, e) && n.offset == e.offset)
    || (&& (forall n | n in s && Shape(n.kind) == Shape(e.kind) && n.offset == e.offset :: n.length == 0)
        && (forall p | p in s && Shape(p.kind) == Shape(e.kind) && p.length > 0 && p.End() == e.offset ::
              Shaded(s, p)))
  }

  ghost predicate Shaded(s: seq<Entity>, p: Entity) { exists e :: Shades(s, p, e) }

  /** p of this shape ends at x, and nothing shades it. */
  ghost predicate Holds(s: seq<Entity>, shape: Kind, p: Entity, x: int) {
    p in s && Shape(p.kind) == shape && p.length > 0 && p.End() == x && !Shaded(s, p)
  }

  lemma UnshadedAfter(s: seq<Entity>, shape: Kind, p: nat, x: int)
    requires Disjoint(s) && p < |Line(s, shape)|
    requires var g := Line(s, shape); g[p].length > 0 && g[p].End() == x
    ensures Shaded(s, Line(s, shape)[p]) <==> exists m :: p < m < |Line(s, shape)| && Line(s, shape)[m].offset < x
  {
    hide Line;
    hide Disjoint;
    hide Shades;
    LineLaws(s, shape);
    var g := Line(s, shape);
    if Shaded(s, g[p]) {
      var e :| Shades(s, g[p], e);
      ShadesBound(s, g[p], e);
      assert g[p] in g;
      var p', m := ShadesIndices(s, shape, g[p], e);
      assert p' == p;
    }
    if m :| p < m < |g| && g[m].offset < x { ShadesAt(s, shape, m, p); }
  }

  lemma HeldIff(s: seq<Entity>, shape: Kind, x: int)
    requires Disjoint(s)
    ensures Held(Line(s, shape), x) <==> exists p :: Holds(s, shape, p, x)
  {
    hide Line;
    hide Disjoint;
    hide Shaded;
    hide InLine;
    LineLaws(s, shape);
    var g := Line(s, shape);
    if Held(g, x) {
      var p :| 0 <= p < |g| && g[p].length > 0 && g[p].End() == x && forall m | p < m < |g| :: g[m].offset >= x;
      UnshadedAfter(s, shape, p, x);
      assert g[p] in g;
      assert Holds(s, shape, g[p], x);
    }
    if a :| Holds(s, shape, a, x) {
      var p :| 0 <= p < |g| && g[p] == a;
      UnshadedAfter(s, shape, p, x);
    }
  }

  lemma StrandedRemains(s: seq<Entity>, shape: Kind, x: int) returns (e: Entity)
    requires Disjoint(s) && Stranded(Line(s, shape), x)
    ensures e in s && Shape(e.kind) == shape && e.offset == x && e.length == 0 && Remains(s, e)
  {
    hide Line;
    hide Disjoint;
    hide Shades;
    hide Shaded;
    hide Held;
    hide InLine;
    LineLaws(s, shape);
    HeldIff(s, shape, x);
    var g := Line(s, shape);
    if n, m :| 0 <= n < m < |g| && Trails(g, n, m) && g[n].offset == x {
      ShadesAt(s, shape, m, n);
      assert g[m] in g;
      e := g[m];
    } else {
      var m :| 0 <= m < |g| && EmptyAt(g, m, x);
      forall n | n in s && Shape(n.kind) == shape && n.offset == x ensures n.length == 0 {
        var k :| 0 <= k < |g| && g[k] == n;
      }
      assert g[m] in g;
      e := g[m];
      assert forall p | p in s && Shape(p.kind) == shape && p.length > 0 && p.End() == x ::
          Shaded(s, p) || Holds(s, shape, p, x);
    }
  }

  lemma RemainsStranded(s: seq<Entity>, shape: Kind, x: int, e: Entity)
    requires Disjoint(s) && e in s && Shape(e.kind) == shape && e.offset == x && e.length == 0 && Remains(s, e)
    ensures Stranded(Line(s, shape), x)
  {
    hide Line;
    hide Disjoint;
    hide Shades;
    hide Shaded;
    hide Held;
    LineLaws(s, shape);
    HeldIff(s, shape, x);
    var g := Line(s, shape);
    if n :| Shades(s, n, e) && n.offset == x {
      ShadesBound(s, n, e);
      var p, m := ShadesIndices(s, shape, n, e);
      assert Trails(g, p, m);
    } else {
      var m :| 0 <= m < |g| && g[m] == e;
      assert EmptyAt(g, m, x);
      assert forall q | 0 <= q < |g| :: g[q] in g;
    }
  }

  lemma RemainsIff(s: seq<Entity>, shape: Kind, x: int)
    requires Disjoint(s)
    ensures Stranded(Line(s, shape), x)
            <==> exists e :: e in s && Shape(e.kind) == shape && e.offset == x && e.length == 0 && Remains(s, e)
  {
    hide Stranded;
    hide Remains;
    hide Line;
    if Stranded(Line(s, shape), x) { var e := StrandedRemains(s, shape, x); }
    if e :| e in s && Shape(e.kind) == shape && e.offset == x && e.length == 0 && Remains(s, e) {
      RemainsStranded(s, shape, x, e);
    }
  }

  lemma {:induction false} ShapesMembers(s: seq<Entity>, shapes: seq<Kind>, shape: Kind, x: int)
    requires Disjoint(s) && NoRepeats(shapes)
    ensures HasEmpty(MergeShapes(s, shapes), shape, x)
            <==> shape in shapes && HasEmpty(Coalesce([], Line(s, shape)), shape, x)
  {
    hide Coalesce;
    hide StableSort;
    hide Apart;
    if shapes == [] {
    } else {
      var front, last := shapes[..|shapes| - 1], shapes[|shapes| - 1];
      var out, g := MergeShapes(s, front), Line(s, last);
      ShapesMembers(s, front, shape, x);
      ShapesApart(s, front);
      LineLaws(s, last);
      LineApart(g, last);
      assert last !in front && shapes == front + [last];
      CoalesceSplits(out, g, last);
      EmptyInEither(out, Coalesce([], g), last, shape, x);
      assert MergeShapes(s, shapes) == out + Coalesce([], g);
    }
  }

  lemma EmptyInEither(a: seq<Entity>, b: seq<Entity>, last: Kind, shape: Kind, x: int)
    requires forall i | 0 <= i < |b| :: Shape(b[i].kind) == last
    ensures HasEmpty(a + b, shape, x) <==> HasEmpty(a, shape, x) || (shape == last && HasEmpty(b, shape, x))
  {
    assert forall m :: m in a + b <==> m in a || m in b;
    if HasEmpty(b, shape, x) {
      var m :| m in b && Shape(m.kind) == shape && m.offset == x && m.length == 0;
      var i :| 0 <= i < |b| && b[i] == m;
      assert m in a + b;
    }
    if HasEmpty(a, shape, x) {
      var m :| m in a && Shape(m.kind) == shape && m.offset == x && m.length == 0;
      assert m in a + b;
    }
  }

  lemma {:induction false} MergeMembers(s: seq<Entity>, shape: Kind, x: int)
    requires |s| >= 2
    ensures HasEmpty(Merge(s), shape, x) <==> HasEmpty(MergeShapes(s, Shapes(s)), shape, x)
  {
    hide StableSort;
    hide MergeShapes;
    SortLaws(ByOffsetThenLength, MergeShapes(s, Shapes(s)));
  }

  /** On any list whose entities of one shape do not overlap, the result holds an empty
      entity of a shape at x if and only if one of the list remains there. All others
      are absorbed. */
  lemma EmptyRemainsIff(s: seq<Entity>, shape: Kind, x: int)
    requires Disjoint(s)
    ensures HasEmpty(Merge(s), shape, x)
            <==> exists e :: e in s && Shape(e.kind) == shape && e.offset == x && e.length == 0 && Remains(s, e)
  {
    hide Merge;
    hide Line;
    hide Coalesce;
    hide Stranded;
    hide Remains;
    hide MergeShapes;
    if |s| < 2 {
      ShortRemains(s, shape, x);
    } else {
      ShapesLaws(s);
      MergeMembers(s, shape, x);
      ShapesMembers(s, Shapes(s), shape, x);
      LineLaws(s, shape);
      LineEmptyIff(Line(s, shape), shape, x);
      RemainsIff(s, shape, x);
    }
  }

  lemma ShortRemains(s: seq<Entity>, shape: Kind, x: int)
    requires |s| < 2
    ensures Merge(s) == s && forall e | e in s && e.length == 0 :: Remains(s, e)
  {}

  /** That one ends there is not enough to absorb an empty entity: shaded by another
      empty one, it does not. */
  lemma ShadedDoesNotAbsorb(p: Entity, f: Entity, e: Entity)
    requires p.kind == f.kind == e.kind && p.length > 0 && f.length == 0 && e.length == 0
    requires p.offset < f.offset < p.End() == e.offset
    ensures Disjoint([p, f, e]) && HasEmpty(Merge([p, f, e]), Shape(e.kind), e.offset)
  {
    hide Merge;
    var s := [p, f, e];
    forall shape, x ensures Cover(s, shape, x) <= 1 {
      assert [p] + [f] + [e] == s && [] + [p] == [p];
      CoverPush([p] + [f], e, shape, x);
      CoverPush([p], f, shape, x);
      CoverPush([], p, shape, x);
    }
    hide Cover;
    assert s[0] == p && s[1] == f && s[2] == e;
    assert Shades(s, p, f) && Shaded(s, p);
    assert Remains(s, e);
    EmptyRemainsIff(s, Shape(e.kind), e.offset);
  }
}
