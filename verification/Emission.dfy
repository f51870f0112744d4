/** Cutting formatted text into builder segments
    (internal/mtproto/pyformat/pyformat.go, emitTokens and Build). The builder is
    modelled as "append a segment and record its UTF-16 offset and length". */
module Emission {
  import opened Options
  import opened Entities
  import opened IntSets
  import opened Utf16

  /** One formatting span over rune positions of the plain text. */
  datatype Span = Span(start: nat, end: nat, kind: Kind)

  /** UTF-16 code units of one rune. */
  function Width(c: char): nat { if c as int >= 0x10000 then 2 else 1 }

  function Units(s: string): nat { if s == [] then 0 else Units(s[..|s| - 1]) + Width(s[|s| - 1]) }

  /** The UTF-16 position of rune position i. */
  function At(plain: string, i: nat): nat
    requires i <= |plain|
  {
    Units(plain[..i])
  }

  lemma {:induction false} UnitsAppend(a: string, b: string)
    ensures Units(a + b) == Units(a) + Units(b)
  {
    if b == [] {
      assert a + b == a;
    } else {
      UnitsAppend(a, b[..|b| - 1]);
      assert (a + b)[..|a + b| - 1] == a + b[..|b| - 1];
    }
  }

  lemma {:induction false} AtGrows(plain: string, i: nat, j: nat)
    requires i < j <= |plain|
    ensures At(plain, i) < At(plain, j)
  {
    assert plain[..j][..j - 1] == plain[..j - 1];
    if i < j - 1 { AtGrows(plain, i, j - 1); }
  }

  lemma AtSplits(plain: string, i: nat, j: nat)
    requires i <= j <= |plain|
    ensures At(plain, j) == At(plain, i) + Units(plain[i..j])
  {
    assert plain[..j] == plain[..i] + plain[i..j];
    UnitsAppend(plain[..i], plain[i..j]);
  }

  /** The count is the length of the UTF-16 encoding. */
  lemma {:induction false} UnitsAre(s: string)
    ensures Units(s) == |Encode(s)|
  {
    if s == "" {
    } else {
      UnitsAre(s[..|s| - 1]);
      RuneUnits(s[|s| - 1]);
    }
  }

  /** In the UTF-16 encoding of the text, what lies before e is the encoding of
      the first `from` runes, and what e covers that of the runes up to `to`. */
  ghost predicate Marks(plain: string, e: Entity, from: nat, to: nat) {
    && from <= to <= |plain| && 0 <= e.offset <= e.End() <= |Encode(plain)|
    && Decode(Encode(plain)[..e.offset]) == Some(plain[..from])
    && Decode(Encode(plain)[e.offset..e.End()]) == Some(plain[from..to])
  }

  lemma MarkedAt(plain: string, e: Entity, from: nat, to: nat)
    requires from <= to <= |plain| && e.offset == At(plain, from) && e.End() == At(plain, to)
    ensures Marks(plain, e, from, to)
  {
    hide Encode;
    hide Decode;
    hide Units;
    var a, b, c := plain[..from], plain[from..to], plain[to..];
    assert plain == a + b + c && plain[..to] == a + b;
    EncodeAppend(a + b, c);
    EncodeAppend(a, b);
    UnitsAre(a);
    UnitsAre(a + b);
    RoundTrip(a);
    RoundTrip(b);
    assert Encode(plain)[..e.offset] == Encode(a) && Encode(plain)[e.offset..e.End()] == Encode(b);
  }

  ghost predicate InBounds(plain: string, spans: seq<Span>) {
    forall i | 0 <= i < |spans| :: spans[i].start <= spans[i].end <= |plain|
  }

  // ---- What spans mean ----

  function SpanEntity(plain: string, sp: Span): Entity
    requires sp.start <= sp.end <= |plain|
  {
    Entity(At(plain, sp.start), Units(plain[sp.start..sp.end]), sp.kind)
  }

  /** One entity per span, with its UTF-16 offset and length. */
  ghost function SpanEntities(plain: string, spans: seq<Span>): seq<Entity>
    requires InBounds(plain, spans)
  {
    seq(|spans|, i requires 0 <= i < |spans| => SpanEntity(plain, spans[i]))
  }

  /** The entity of a span marks the span's very text. */
  lemma SpanText(plain: string, sp: Span)
    requires sp.start <= sp.end <= |plain|
    ensures Marks(plain, SpanEntity(plain, sp), sp.start, sp.end)
  {
    AtSplits(plain, sp.start, sp.end);
    MarkedAt(plain, SpanEntity(plain, sp), sp.start, sp.end);
  }

  // ---- Cutting ----

  function Bounds(plain: string, spans: seq<Span>): set<int> {
    {0, |plain|}
    + (set i | 0 <= i < |spans| :: spans[i].start as int)
    + (set i | 0 <= i < |spans| :: spans[i].end as int)
  }

  /** The kinds of the spans over [from, to), in span order. */
  function Over(spans: seq<Span>, from: int, to: int): seq<Kind> {
    if spans == [] then []
    else
      var sp := spans[|spans| - 1];
      Over(spans[..|spans| - 1], from, to) + if sp.start <= from && to <= sp.end then [sp.kind] else []
  }

  function Formatted(offset: int, length: nat, kinds: seq<Kind>): seq<Entity> {
    seq(|kinds|, i requires 0 <= i < |kinds| => Entity(offset, length, kinds[i]))
  }

  /** The points at which the text is cut: every boundary, in order. */
  function Points(plain: string, spans: seq<Span>): seq<int> { Ordered(Bounds(plain, spans)) }

  lemma PointsLaws(plain: string, spans: seq<Span>)
    requires InBounds(plain, spans)
    ensures var p := Points(plain, spans);
            && |p| >= 1 && p[0] == 0 && p[|p| - 1] == |plain|
            && (forall i | 0 <= i < |p| :: 0 <= p[i] <= |plain|)
            && (forall i, j | 0 <= i < j < |p| :: p[i] < p[j])
            && (forall i | 0 <= i < |spans| :: spans[i].start in p && spans[i].end in p)
  {
    hide Ordered;
    hide Bounds;
    var p, b := Points(plain, spans), Bounds(plain, spans);
    BoundsLaws(plain, spans);
    forall i | 0 <= i < |p| ensures 0 <= p[i] <= |plain| {
      assert p[i] in p && p[i] in b;
    }
    var first :| 0 <= first < |p| && p[first] == 0;
    var last :| 0 <= last < |p| && p[last] == |plain|;
  }

  lemma BoundsLaws(plain: string, spans: seq<Span>)
    requires InBounds(plain, spans)
    ensures 0 in Bounds(plain, spans) && |plain| in Bounds(plain, spans)
    ensures forall b | b in Bounds(plain, spans) :: 0 <= b <= |plain|
    ensures forall i | 0 <= i < |spans| ::
              spans[i].start in Bounds(plain, spans) && spans[i].end in Bounds(plain, spans)
  {}

  /** The entities of the first n segments. */
  function EmitUpTo(plain: string, spans: seq<Span>, p: seq<int>, n: nat): seq<Entity>
    requires n < |p| && forall i | 0 <= i < |p| :: 0 <= p[i] <= |plain|
    requires forall i, j | 0 <= i < j < |p| :: p[i] < p[j]
  {
    if n == 0 then []
    else
      EmitUpTo(plain, spans, p, n - 1)
      + Formatted(At(plain, p[n - 1]), Units(plain[p[n - 1]..p[n]]), Over(spans, p[n - 1], p[n]))
  }

  function Emit(plain: string, spans: seq<Span>): seq<Entity>
    requires InBounds(plain, spans)
  {
    PointsLaws(plain, spans);
    var p := Points(plain, spans);
    EmitUpTo(plain, spans, p, |p| - 1)
  }

  // ---- Cutting keeps the coverage ----

  function CountShape(kinds: seq<Kind>, shape: Kind): nat {
    if kinds == [] then 0
    else CountShape(kinds[..|kinds| - 1], shape) + if Shape(kinds[|kinds| - 1]) == shape then 1 else 0
  }

  lemma {:induction false} CountPush(kinds: seq<Kind>, kind: Kind, shape: Kind)
    ensures CountShape(kinds + [kind], shape) == CountShape(kinds, shape) + if Shape(kind) == shape then 1 else 0
    ensures kinds + [] == kinds
  {
    assert (kinds + [kind])[..|kinds|] == kinds;
  }

  lemma {:induction false} FormattedCovers(offset: int, length: nat, kinds: seq<Kind>, shape: Kind, x: int)
    ensures Cover(Formatted(offset, length, kinds), shape, x)
            == if offset <= x < offset + length then CountShape(kinds, shape) else 0
  {
    if kinds == [] {
    } else {
      var front, last := kinds[..|kinds| - 1], kinds[|kinds| - 1];
      FormattedCovers(offset, length, front, shape, x);
      assert Formatted(offset, length, kinds) == Formatted(offset, length, front) + [Entity(offset, length, last)];
      CoverPush(Formatted(offset, length, front), Entity(offset, length, last), shape, x);
    }
  }

  /** On a segment [from, to) that no span boundary divides, the spans over it are
      the spans over each UTF-16 position in it. */
  lemma {:induction false} OverIsCover(plain: string, spans: seq<Span>, from: nat, to: nat, shape: Kind, x: int)
    requires InBounds(plain, spans) && from < to <= |plain| && At(plain, from) <= x < At(plain, to)
    requires forall i | 0 <= i < |spans| ::
               (spans[i].start <= from || to <= spans[i].start) && (spans[i].end <= from || to <= spans[i].end)
    ensures CountShape(Over(spans, from, to), shape) == Cover(SpanEntities(plain, spans), shape, x)
  {
    if spans == [] {
    } else {
      hide At;
      hide Units;
      hide Cover;
      hide CountShape;
      var front, sp := spans[..|spans| - 1], spans[|spans| - 1];
      OverIsCover(plain, front, from, to, shape, x);
      SpanOverPosition(plain, sp, from, to, x);
      assert SpanEntities(plain, spans) == SpanEntities(plain, front) + [SpanEntity(plain, sp)];
      CoverPush(SpanEntities(plain, front), SpanEntity(plain, sp), shape, x);
      CountPush(Over(front, from, to), sp.kind, shape);
    }
  }

  lemma SpanOverPosition(plain: string, sp: Span, from: nat, to: nat, x: int)
    requires sp.start <= sp.end <= |plain| && from < to <= |plain| && At(plain, from) <= x < At(plain, to)
    requires (sp.start <= from || to <= sp.start) && (sp.end <= from || to <= sp.end)
    ensures SpanEntity(plain, sp).Covers(x) <==> sp.start <= from && to <= sp.end
  {
    AtSplits(plain, sp.start, sp.end);
    if sp.start < from { AtGrows(plain, sp.start, from); }
    if to < sp.start { AtGrows(plain, to, sp.start); }
    if sp.end < from { AtGrows(plain, sp.end, from); }
    if to < sp.end { AtGrows(plain, to, sp.end); }
  }

  lemma {:induction false} EmitUpToCovers(plain: string, spans: seq<Span>, p: seq<int>, n: nat, shape: Kind, x: int)
    requires InBounds(plain, spans) && p == Points(plain, spans) && n < |p|
    requires forall i | 0 <= i < |p| :: 0 <= p[i] <= |plain|
    requires forall i, j | 0 <= i < j < |p| :: p[i] < p[j]
    ensures Cover(EmitUpTo(plain, spans, p, n), shape, x)
            == if At(plain, p[0]) <= x < At(plain, p[n]) then Cover(SpanEntities(plain, spans), shape, x) else 0
  {
    hide Points;
    hide At;
    if n == 0 {
    } else {
      var from, to := p[n - 1], p[n];
      var kinds := Over(spans, from, to);
      EmitUpToCovers(plain, spans, p, n - 1, shape, x);
      AtSplits(plain, from, to);
      AtGrows(plain, from, to);
      if n > 1 { AtGrows(plain, p[0], from); }
      FormattedCovers(At(plain, from), Units(plain[from..to]), kinds, shape, x);
      var segment := Formatted(At(plain, from), Units(plain[from..to]), kinds);
      CoverAppend(EmitUpTo(plain, spans, p, n - 1), segment, shape, x);
      if At(plain, from) <= x < At(plain, to) {
        NoBoundaryInside(plain, spans, p, n - 1);
        OverIsCover(plain, spans, from, to, shape, x);
      }
    }
  }

  lemma NoBoundaryInside(plain: string, spans: seq<Span>, p: seq<int>, n: nat)
    requires InBounds(plain, spans) && p == Points(plain, spans) && n + 1 < |p|
    ensures forall i | 0 <= i < |spans| ::
              && (spans[i].start <= p[n] || p[n + 1] <= spans[i].start)
              && (spans[i].end <= p[n] || p[n + 1] <= spans[i].end)
  {
    hide Points;
    PointsLaws(plain, spans);
    forall i | 0 <= i < |spans|
      ensures spans[i].start <= p[n] || p[n + 1] <= spans[i].start
      ensures spans[i].end <= p[n] || p[n + 1] <= spans[i].end
    {
      var a :| 0 <= a < |p| && p[a] == spans[i].start;
      var b :| 0 <= b < |p| && p[b] == spans[i].end;
    }
  }

  lemma {:induction false} OutsideText(plain: string, spans: seq<Span>, shape: Kind, x: int)
    requires InBounds(plain, spans) && (x < 0 || x >= At(plain, |plain|))
    ensures Cover(SpanEntities(plain, spans), shape, x) == 0
  {
    if spans == [] {
    } else {
      var front, sp := spans[..|spans| - 1], spans[|spans| - 1];
      OutsideText(plain, front, shape, x);
      assert SpanEntities(plain, spans) == SpanEntities(plain, front) + [SpanEntity(plain, sp)];
      CoverPush(SpanEntities(plain, front), SpanEntity(plain, sp), shape, x);
      AtSplits(plain, sp.start, sp.end);
      if sp.end < |plain| { AtGrows(plain, sp.end, |plain|); }
    }
  }

  /** Cutting keeps the meaning: over every UTF-16 position lie as many emitted
      entities of each shape as spans of it, whatever the spans. */
  lemma {:induction false} EmitKeepsCoverage(plain: string, spans: seq<Span>, shape: Kind, x: int)
    requires InBounds(plain, spans)
    ensures Cover(Emit(plain, spans), shape, x) == Cover(SpanEntities(plain, spans), shape, x)
  {
    assert At(plain, 0) == 0;
    hide At;
    hide Cover;
    hide Points;
    hide EmitUpTo;
    PointsLaws(plain, spans);
    var p := Points(plain, spans);
    EmitUpToCovers(plain, spans, p, |p| - 1, shape, x);
    if x < 0 || x >= At(plain, |plain|) { OutsideText(plain, spans, shape, x); }
  }

  /** What Build sends means what the spans mean. */
  lemma {:induction false} BuildKeepsMeaning(plain: string, spans: seq<Span>, shape: Kind, x: int)
    requires InBounds(plain, spans)
    ensures Cover(Merge(Emit(plain, spans)), shape, x) == Cover(SpanEntities(plain, spans), shape, x)
  {
    EmitKeepsCoverage(plain, spans, shape, x);
    MergeKeepsCoverage(Emit(plain, spans), shape, x);
  }

  // ---- Cutting then merging is the identity ----

  /** Spans of one shape neither overlap nor touch, and none is empty. */
  ghost predicate Separate(spans: seq<Span>) {
    && (forall i | 0 <= i < |spans| :: spans[i].start < spans[i].end)
    && (forall i, j | 0 <= i < j < |spans| && Shape(spans[i].kind) == Shape(spans[j].kind) ::
          spans[i].end < spans[j].start || spans[j].end < spans[i].start)
  }

  lemma {:induction false} PairwiseIsDisjoint(s: seq<Entity>, shape: Kind, x: int)
    requires forall i, j | 0 <= i < j < |s| && Shape(s[i].kind) == Shape(s[j].kind) ::
               s[i].End() <= s[j].offset || s[j].End() <= s[i].offset
    ensures Cover(s, shape, x) <= 1
  {
    if s == [] {
    } else {
      var front := s[..|s| - 1];
      PairwiseIsDisjoint(front, shape, x);
      if Cover(front, shape, x) >= 1 {
        var i := SomeoneCovers(front, shape, x);
        assert s[i] == front[i];
      }
    }
  }

  lemma SpanEnds(plain: string, sp: Span)
    requires sp.start < sp.end <= |plain|
    ensures var e := SpanEntity(plain, sp);
            e.offset == At(plain, sp.start) && e.End() == At(plain, sp.end) && e.length > 0
  {
    AtSplits(plain, sp.start, sp.end);
    AtGrows(plain, sp.start, sp.end);
  }

  lemma SpansAreCanonical(plain: string, spans: seq<Span>)
    requires InBounds(plain, spans) && Separate(spans)
    ensures Canonical(SpanEntities(plain, spans))
  {
    hide At;
    hide Cover;
    var s := SpanEntities(plain, spans);
    forall i | 0 <= i < |s| ensures s[i].length > 0 { SpanEnds(plain, spans[i]); }
    forall i, j | 0 <= i < j < |s| && Shape(s[i].kind) == Shape(s[j].kind)
      ensures s[i].End() < s[j].offset || s[j].End() < s[i].offset
    {
      SpanEnds(plain, spans[i]);
      SpanEnds(plain, spans[j]);
      if spans[i].end < spans[j].start { AtGrows(plain, spans[i].end, spans[j].start); }
      else { AtGrows(plain, spans[j].end, spans[i].start); }
    }
    forall shape, x ensures Cover(s, shape, x) <= 1 { PairwiseIsDisjoint(s, shape, x); }
  }

  lemma {:induction false} EmitNonEmpty(plain: string, spans: seq<Span>, p: seq<int>, n: nat)
    requires n < |p| && forall i | 0 <= i < |p| :: 0 <= p[i] <= |plain|
    requires forall i, j | 0 <= i < j < |p| :: p[i] < p[j]
    ensures NonEmpty(EmitUpTo(plain, spans, p, n))
  {
    if n == 0 {
    } else {
      EmitNonEmpty(plain, spans, p, n - 1);
      AtSplits(plain, p[n - 1], p[n]);
      AtGrows(plain, p[n - 1], p[n]);
    }
  }

  lemma EmitIsNonEmpty(plain: string, spans: seq<Span>)
    requires InBounds(plain, spans)
    ensures NonEmpty(Emit(plain, spans))
  {
    hide Points;
    PointsLaws(plain, spans);
    EmitNonEmpty(plain, spans, Points(plain, spans), |Points(plain, spans)| - 1);
  }

  lemma {:induction false} OverFrom(spans: seq<Span>, from: int, to: int, k: nat) returns (i: nat)
    requires k < |Over(spans, from, to)|
    ensures i < |spans| && spans[i].start <= from && to <= spans[i].end && spans[i].kind == Over(spans, from, to)[k]
  {
    var front := spans[..|spans| - 1];
    if k < |Over(front, from, to)| { i := OverFrom(front, from, to, k); } else { i := |front|; }
  }

  /** An emitted entity carries the kind of a span over its start. */
  lemma {:induction false} EmittedFrom(plain: string, spans: seq<Span>, p: seq<int>, n: nat, k: nat) returns (i: nat)
    requires InBounds(plain, spans) && n < |p| && forall i | 0 <= i < |p| :: 0 <= p[i] <= |plain|
    requires forall i, j | 0 <= i < j < |p| :: p[i] < p[j]
    requires k < |EmitUpTo(plain, spans, p, n)|
    ensures i < |spans| && spans[i].kind == EmitUpTo(plain, spans, p, n)[k].kind
    ensures SpanEntity(plain, spans[i]).Covers(EmitUpTo(plain, spans, p, n)[k].offset)
  {
    hide At;
    hide Units;
    if k < |EmitUpTo(plain, spans, p, n - 1)| {
      i := EmittedFrom(plain, spans, p, n - 1, k);
    } else {
      var from, to := p[n - 1], p[n];
      i := OverFrom(spans, from, to, k - |EmitUpTo(plain, spans, p, n - 1)|);
      AtGrows(plain, from, to);
      SpanOverPosition(plain, spans[i], from, to, At(plain, from));
    }
  }

  lemma MergedFrom(plain: string, spans: seq<Span>, m: Entity) returns (i: nat)
    requires InBounds(plain, spans) && m in Merge(Emit(plain, spans))
    ensures i < |spans| && spans[i].kind == m.kind && SpanEntity(plain, spans[i]).Covers(m.offset)
  {
    hide Merge;
    hide Points;
    hide EmitUpTo;
    hide SpanEntity;
    var out := Emit(plain, spans);
    MergeHeaded(out);
    assert Headed(m, out);
    var k :| 0 <= k < |out| && out[k].offset == m.offset && out[k].kind == m.kind;
    PointsLaws(plain, spans);
    i := EmittedFrom(plain, spans, Points(plain, spans), |Points(plain, spans)| - 1, k);
  }

  lemma MergedIsSpan(plain: string, spans: seq<Span>, a: nat)
    requires InBounds(plain, spans) && Canonical(SpanEntities(plain, spans)) && Canonical(Merge(Emit(plain, spans)))
    requires forall shape, x ::
               Cover(Merge(Emit(plain, spans)), shape, x) == Cover(SpanEntities(plain, spans), shape, x)
    requires a < |Merge(Emit(plain, spans))|
    ensures Merge(Emit(plain, spans))[a] in SpanEntities(plain, spans)
  {
    hide Merge;
    hide Emit;
    hide Cover;
    hide At;
    hide Units;
    var merged, want := Merge(Emit(plain, spans)), SpanEntities(plain, spans);
    SameIntervals(merged, want, a);
    var j :| 0 <= j < |want| && Norm(want[j]) == Norm(merged[a]);
    var i := MergedFrom(plain, spans, merged[a]);
    OneOfKind(want, i, j, merged[a]);
  }

  /** For any non-empty in-bounds spans of which those of one shape neither
      overlap nor touch, cutting and then merging gives exactly one entity per
      span, with that span's UTF-16 offset and length and its very kind. */
  lemma CutThenMergeIsIdentity(plain: string, spans: seq<Span>)
    requires InBounds(plain, spans) && Separate(spans)
    ensures multiset(Merge(Emit(plain, spans))) == multiset(SpanEntities(plain, spans))
  {
    hide Emit;
    hide Merge;
    hide Cover;
    hide SpanEntities;
    var out, want := Emit(plain, spans), SpanEntities(plain, spans);
    SpansAreCanonical(plain, spans);
    EmitIsNonEmpty(plain, spans);
    forall shape, x ensures Cover(out, shape, x) <= 1 { EmitKeepsCoverage(plain, spans, shape, x); }
    MergeSeparates(out);
    forall shape, x ensures Cover(Merge(out), shape, x) == Cover(want, shape, x) {
      BuildKeepsMeaning(plain, spans, shape, x);
    }
    CoverageDetermines(Merge(out), want);
    forall e | e in Merge(out) ensures e in want {
      var a :| 0 <= a < |Merge(out)| && Merge(out)[a] == e;
      MergedIsSpan(plain, spans, a);
    }
    SameEntities(Merge(out), want);
  }

  /** The entity e is that of some span: of its kind, on its very text. */
  ghost predicate MarksSpan(plain: string, spans: seq<Span>, e: Entity) {
    exists k :: 0 <= k < |spans| && e.kind == spans[k].kind && Marks(plain, e, spans[k].start, spans[k].end)
  }

  /** Then every entity marks the text of a span of its kind. */
  lemma MergedMarksSpan(plain: string, spans: seq<Span>, m: Entity)
    requires InBounds(plain, spans) && Separate(spans) && m in Merge(Emit(plain, spans))
    ensures MarksSpan(plain, spans, m)
  {
    hide Merge;
    hide Emit;
    hide Marks;
    CutThenMergeIsIdentity(plain, spans);
    var want := SpanEntities(plain, spans);
    assert m in multiset(Merge(Emit(plain, spans)));
    var k :| 0 <= k < |want| && want[k] == m;
    SpanText(plain, spans[k]);
  }

  // ---- Entities never divide a rune ----

  ghost predicate OnRunes(plain: string, e: Entity) {
    exists from, to :: 0 <= from <= to <= |plain| && e.offset == At(plain, from) && e.End() == At(plain, to)
  }

  lemma {:induction false} EmittedOnRunes(plain: string, spans: seq<Span>, p: seq<int>, n: nat)
    requires n < |p| && forall i | 0 <= i < |p| :: 0 <= p[i] <= |plain|
    requires forall i, j | 0 <= i < j < |p| :: p[i] < p[j]
    ensures forall e | e in EmitUpTo(plain, spans, p, n) :: OnRunes(plain, e)
  {
    if n == 0 {
    } else {
      hide At;
      EmittedOnRunes(plain, spans, p, n - 1);
      AtSplits(plain, p[n - 1], p[n]);
    }
  }

  /** Whatever the spans, every entity that Build sends marks a stretch of whole
      runes. */
  lemma MergedMarks(plain: string, spans: seq<Span>, m: Entity)
    requires InBounds(plain, spans) && m in Merge(Emit(plain, spans))
    ensures exists from, to :: Marks(plain, m, from, to)
  {
    hide Points;
    hide EmitUpTo;
    hide Merge;
    hide Marks;
    hide At;
    PointsLaws(plain, spans);
    EmittedOnRunes(plain, spans, Points(plain, spans), |Points(plain, spans)| - 1);
    var out := Emit(plain, spans);
    MergeHeaded(out);
    assert Headed(m, out) && Tailed(m, out);
    var i :| 0 <= i < |out| && out[i].offset == m.offset;
    var j :| 0 <= j < |out| && out[j].End() == m.End();
    assert out[i] in out && out[j] in out;
    var a :| 0 <= a <= |plain| && out[i].offset == At(plain, a);
    var b :| 0 <= b <= |plain| && out[j].End() == At(plain, b);
    if b < a { AtGrows(plain, b, a); }
    MarkedAt(plain, m, a, b);
  }

  // ---- The loop ----

  /** The builder: the text so far and the entities recorded on it. */
  class Builder {
    var message: string
    var entities: seq<Entity>

    constructor ()
      ensures message == "" && entities == []
    {
      message, entities := "", [];
    }

    /** Plain is Format with no kinds. Offsets and lengths count UTF-16 units. */
    method Format(segment: string, kinds: seq<Kind>)
      modifies this
      ensures message == old(message) + segment
      ensures entities == old(entities) + Formatted(|Encode(old(message))|, |Encode(segment)|, kinds)
    {
      UnitsAre(message);
      UnitsAre(segment);
      entities := entities + Formatted(Units(message), Units(segment), kinds);
      message := message + segment;
    }
  }

  method EmitTokens(b: Builder, plain: string, spans: seq<Span>)
    requires InBounds(plain, spans) && b.message == "" && b.entities == []
    modifies b
    ensures b.message == plain && b.entities == Emit(plain, spans)
  {
    hide Points;
    hide Encode;
    hide Units;
    hide Over;
    hide Formatted;
    PointsLaws(plain, spans);
    var points := Points(plain, spans);
    for i := 0 to |points| - 1
      invariant b.message == plain[..points[i]]
      invariant b.entities == EmitUpTo(plain, spans, points, i)
    {
      var from, to := points[i], points[i + 1];
      var kinds := KindsOver(spans, from, to);
      assert plain[..to] == plain[..from] + plain[from..to];
      UnitsAre(plain[..from]);
      UnitsAre(plain[from..to]);
      b.Format(plain[from..to], kinds);
    }
    assert plain[..|plain|] == plain;
  }

  method KindsOver(spans: seq<Span>, from: int, to: int) returns (kinds: seq<Kind>)
    ensures kinds == Over(spans, from, to)
  {
    kinds := [];
    for i := 0 to |spans|
      invariant kinds == Over(spans[..i], from, to)
    {
      assert spans[..i + 1][..i] == spans[..i];
      if spans[i].start <= from && to <= spans[i].end {
        kinds := kinds + [spans[i].kind];
      }
    }
    assert spans[..|spans|] == spans;
  }
}
