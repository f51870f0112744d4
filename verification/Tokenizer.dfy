/** From marked-up text to plain text and formatting spans
    (internal/mtproto/pyformat/pyformat.go, tokenizeHTMLOpts, dropZeroLength and
    applyHTMLOpts). The scan keeps frames that grow with each run of text; what
    the spans ought to be is defined here without frames, by matching closers
    with openers. */
module Tokenizer {
  import opened Options
  import opened Entities
  import opened Emission
  import opened Markup

  datatype Outcome = Formatter(kind: Option<Kind>) | Failed(why: string)

  /** The parts of the parser that only map strings: entity references, lower
      case, and the formatter of a tag, which can fail on an unknown user. */
  datatype Dialect = Dialect(unescape: string -> string, lower: string -> string,
                             formatter: (string, string) -> Outcome)
  {
    /** The plain text an event adds. */
    function Adds(e: Event): string {
      match e
      case Data(raw) => unescape(raw)
      case Stray => "<"
      case _ => ""
    }

    function Tag(e: Event): string
      requires e.Open? || e.Close?
    {
      lower(e.name)
    }

    function Made(e: Event): Outcome
      requires e.Open?
    {
      formatter(Tag(e), e.attrs)
    }

    predicate Opens(e: Event, tag: string) { e.Open? && Tag(e) == tag }

    predicate Closes(e: Event, tag: string) { e.Close? && Tag(e) == tag }
  }

  // ---- What the tokens ought to be ----

  function Plain(o: Dialect, es: seq<Event>): string {
    if es == [] then "" else Plain(o, es[..|es| - 1]) + o.Adds(es[|es| - 1])
  }

  /** The opener a closer of this tag matches after es: looking back, each closer
      of the tag claims one opener of it. */
  function Opener(o: Dialect, es: seq<Event>, tag: string, skip: nat): (r: Option<nat>)
    ensures r.Some? ==> r.value < |es| && o.Opens(es[r.value], tag)
  {
    if es == [] then None
    else
      var front, e := es[..|es| - 1], es[|es| - 1];
      if o.Closes(e, tag) then Opener(o, front, tag, skip + 1)
      else if !o.Opens(e, tag) then Opener(o, front, tag, skip)
      else if skip == 0 then Some(|front|)
      else Opener(o, front, tag, skip - 1)
  }

  /** The span a closer of this tag ends after es: from the plain length at its
      opener to the plain length now, if that is not empty. */
  function Ended(o: Dialect, es: seq<Event>, tag: string): seq<Span> {
    match Opener(o, es, tag, 0)
    case None => []
    case Some(i) =>
      var start, end := |Plain(o, es[..i])|, |Plain(o, es)|;
      match o.Made(es[i])
      case Formatter(Some(kind)) => if start < end then [Span(start, end, kind)] else []
      case _ => []
  }

  /** All spans, in the order of their closers. */
  function Spans(o: Dialect, es: seq<Event>): seq<Span> {
    if es == [] then []
    else
      var front, e := es[..|es| - 1], es[|es| - 1];
      if e.Close? then Spans(o, front) + Ended(o, front, o.Tag(e)) else Spans(o, front)
  }

  /** The first formatter failure. */
  function Failure(o: Dialect, es: seq<Event>): Option<string> {
    if es == [] then None
    else
      var front, e := es[..|es| - 1], es[|es| - 1];
      if Failure(o, front).Some? then Failure(o, front)
      else if e.Open? && o.Made(e).Failed? then Some(o.Made(e).why)
      else None
  }

  // ---- What they are on the text ----

  /** The events that are no tags. */
  function Untagged(es: seq<Event>): seq<Event> {
    if es == [] then []
    else
      var front, e := es[..|es| - 1], es[|es| - 1];
      if e.Open? || e.Close? then Untagged(front) else Untagged(front) + [e]
  }

  /** Where there are no entity references, the plain text is the text without its
      tags. */
  lemma {:induction false} PlainIsTextWithoutTags(o: Dialect, es: seq<Event>)
    requires forall raw :: o.unescape(raw) == raw
    ensures Plain(o, es) == Written(Untagged(es))
  {
    if es == [] {
    } else {
      var front, e := es[..|es| - 1], es[|es| - 1];
      PlainIsTextWithoutTags(o, front);
      if !e.Open? && !e.Close? { assert (Untagged(front) + [e])[..|Untagged(front)|] == Untagged(front); }
    }
  }

  /** The tag fails to resolve. */
  ghost predicate Unresolved(o: Dialect, e: Event) { e.Open? && o.formatter(o.lower(e.name), e.attrs).Failed? }

  /** There is a failure exactly if some tag fails to resolve, and then it is that of
      the first such tag. */
  lemma {:induction false} FailureIsFirst(o: Dialect, es: seq<Event>)
    ensures Failure(o, es).None? <==> forall i | 0 <= i < |es| :: !Unresolved(o, es[i])
    ensures forall i | 0 <= i < |es| && Unresolved(o, es[i]) && (forall j | 0 <= j < i :: !Unresolved(o, es[j])) ::
              Failure(o, es) == Some(o.formatter(o.lower(es[i].name), es[i].attrs).why)
  {
    if es == [] {
    } else {
      FailureIsFirst(o, es[..|es| - 1]);
    }
  }

  // ---- The plain length grows ----

  lemma {:induction false} PlainGrows(o: Dialect, es: seq<Event>, i: nat)
    requires i <= |es|
    ensures |Plain(o, es[..i])| <= |Plain(o, es)|
  {
    if i == |es| {
      assert es[..i] == es;
    } else {
      PlainGrows(o, es[..|es| - 1], i);
      assert es[..|es| - 1][..i] == es[..i];
    }
  }

  /** Every span is non-empty and lies inside the plain text. */
  lemma {:induction false} SpansInText(o: Dialect, es: seq<Event>)
    ensures InBounds(Plain(o, es), Spans(o, es))
    ensures forall k | 0 <= k < |Spans(o, es)| :: Spans(o, es)[k].start < Spans(o, es)[k].end
  {
    if es != [] { SpansInText(o, es[..|es| - 1]); }
  }

  // ---- The openers still open ----

  datatype Opening = Opening(index: nat, tag: string)

  /** The place of the most recent opening of the tag, or -1. */
  function Last(at: seq<Opening>, tag: string): (k: int)
    ensures -1 <= k < |at| && (k >= 0 ==> at[k].tag == tag)
    ensures forall m | k < m < |at| :: at[m].tag != tag
  {
    if at == [] || at[|at| - 1].tag == tag then |at| - 1 else Last(at[..|at| - 1], tag)
  }

  function Removed<T>(s: seq<T>, k: int): seq<T>
    requires k < |s|
  {
    if k >= 0 then s[..k] + s[k + 1..] else s
  }

  /** The openers no closer has claimed. */
  function StillOpen(o: Dialect, es: seq<Event>): seq<Opening> {
    if es == [] then [] else Touched(o, StillOpen(o, es[..|es| - 1]), |es| - 1, es[|es| - 1])
  }

  function Touched(o: Dialect, at: seq<Opening>, index: nat, e: Event): seq<Opening> {
    match e
    case Open(_, _) => at + [Opening(index, o.Tag(e))]
    case Close(_, _) => Removed(at, Last(at, o.Tag(e)))
    case _ => at
  }

  /** The most recent opening of the tag but for skip more recent ones. */
  function Recent(at: seq<Opening>, tag: string, skip: nat): Option<nat> {
    if at == [] then None
    else
      var front, op := at[..|at| - 1], at[|at| - 1];
      if op.tag != tag then Recent(front, tag, skip)
      else if skip == 0 then Some(op.index)
      else Recent(front, tag, skip - 1)
  }

  lemma RecentPush(at: seq<Opening>, op: Opening, tag: string, skip: nat)
    ensures Recent(at + [op], tag, skip)
            == if op.tag != tag then Recent(at, tag, skip)
               else if skip == 0 then Some(op.index)
               else Recent(at, tag, skip - 1)
  {
    assert (at + [op])[..|at|] == at;
  }

  lemma {:induction false} LastPush(at: seq<Opening>, op: Opening, tag: string)
    ensures Last(at + [op], tag) == if op.tag == tag then |at| else Last(at, tag)
  {
    assert (at + [op])[..|at|] == at;
  }

  lemma RemovedPush<T>(s: seq<T>, x: T, k: int)
    requires k < |s|
    ensures Removed(s + [x], k) == Removed(s, k) + [x]
    ensures Removed(s + [x], |s|) == s
  {}

  /** Without its most recent opening, the tag's next one is its most recent. */
  lemma {:induction false} RecentRemoved(at: seq<Opening>, tag: string, other: string, skip: nat)
    ensures Recent(Removed(at, Last(at, tag)), other, skip)
            == Recent(at, other, if other == tag then skip + 1 else skip)
  {
    if at == [] {
    } else {
      var front, op := at[..|at| - 1], at[|at| - 1];
      hide Recent;
      hide Last;
      hide Removed;
      assert at == front + [op];
      LastPush(front, op, tag);
      RecentPush(front, op, other, if other == tag then skip + 1 else skip);
      RemovedPush(front, op, Last(front, tag));
      if op.tag != tag {
        RecentPush(Removed(front, Last(front, tag)), op, other, skip);
        RecentRemoved(front, tag, other, skip);
        if skip > 0 { RecentRemoved(front, tag, other, skip - 1); }
      }
    }
  }

  /** The stack of open tags answers the matching of closers with openers. */
  lemma {:induction false} StackMatches(o: Dialect, es: seq<Event>, tag: string, skip: nat)
    ensures Opener(o, es, tag, skip) == Recent(StillOpen(o, es), tag, skip)
  {
    if es == [] {
    } else {
      hide Recent;
      hide Removed;
      hide Last;
      var front, e := es[..|es| - 1], es[|es| - 1];
      var at := StillOpen(o, front);
      StackMatches(o, front, tag, skip);
      if e.Close? {
        StackMatches(o, front, tag, skip + 1);
        RecentRemoved(at, o.Tag(e), tag, skip);
      } else if e.Open? {
        if skip > 0 { StackMatches(o, front, tag, skip - 1); }
        RecentPush(at, Opening(|front|, o.Tag(e)), tag, skip);
      }
    }
  }

  // ---- Stack-ordered closers give nested spans ----

  /** Every closer that matches anything matches the innermost open tag. */
  ghost predicate StackOrdered(o: Dialect, es: seq<Event>) {
    forall j | 0 <= j < |es| && es[j].Close? ::
      var at := StillOpen(o, es[..j]);
      var i := Opener(o, es[..j], o.Tag(es[j]), 0);
      i.Some? ==> at != [] && i.value == at[|at| - 1].index
  }

  predicate NestedOrDisjoint(a: Span, b: Span) {
    || a.end <= b.start || b.end <= a.start
    || (a.start <= b.start && b.end <= a.end) || (b.start <= a.start && a.end <= b.end)
  }

  /** The span k of Spans(es) ends at closer j and starts at opener i. */
  ghost predicate Runs(o: Dialect, es: seq<Event>, sp: Span, i: nat, j: nat) {
    && i < j < |es| && es[j].Close? && Opener(o, es[..j], o.Tag(es[j]), 0) == Some(i)
    && sp.start == |Plain(o, es[..i])| && sp.end == |Plain(o, es[..j])|
  }

  lemma {:induction false} SpanRuns(o: Dialect, es: seq<Event>, k: nat) returns (i: nat, j: nat)
    requires k < |Spans(o, es)|
    ensures Runs(o, es, Spans(o, es)[k], i, j)
  {
    var front, e := es[..|es| - 1], es[|es| - 1];
    if k < |Spans(o, front)| {
      i, j := SpanRuns(o, front, k);
      assert front[..j] == es[..j] && front[..i] == es[..i];
    } else {
      i, j := Opener(o, front, o.Tag(e), 0).value, |front|;
      assert front[..i] == es[..i];
    }
  }

  ghost predicate IsOpen(at: seq<Opening>, i: nat) { exists k :: 0 <= k < |at| && at[k].index == i }

  lemma TouchedFrom(o: Dialect, at: seq<Opening>, index: nat, e: Event, i: nat)
    requires IsOpen(Touched(o, at, index, e), i) && i != index
    ensures IsOpen(at, i)
  {
    var r := Touched(o, at, index, e);
    var k :| 0 <= k < |r| && r[k].index == i;
    if e.Close? {
      var gone := Last(at, o.Tag(e));
      hide Last;
      assert r[k] == at[if gone >= 0 && k >= gone then k + 1 else k];
    } else {
      assert r[k] == at[k];
    }
  }

  lemma {:induction false} OpenSince(o: Dialect, es: seq<Event>, i: nat, j: nat)
    requires i < j <= |es| && IsOpen(StillOpen(o, es), i)
    ensures IsOpen(StillOpen(o, es[..j]), i)
  {
    if j == |es| {
      assert es[..j] == es;
    } else {
      hide Touched;
      hide IsOpen;
      var front := es[..|es| - 1];
      assert front[..j] == es[..j];
      TouchedFrom(o, StillOpen(o, front), |front|, es[|es| - 1], i);
      OpenSince(o, front, i, j);
    }
  }

  lemma {:induction false} RecentIsOpen(at: seq<Opening>, tag: string, skip: nat)
    requires Recent(at, tag, skip).Some?
    ensures IsOpen(at, Recent(at, tag, skip).value)
  {
    var front := at[..|at| - 1];
    if at[|at| - 1].tag != tag || skip > 0 {
      var skip' := if at[|at| - 1].tag != tag then skip else skip - 1;
      RecentIsOpen(front, tag, skip');
      var k :| 0 <= k < |front| && front[k].index == Recent(front, tag, skip').value;
      assert at[k] == front[k];
    }
  }

  /** In order of opening, all below n. */
  ghost predicate Ascending(at: seq<Opening>, n: nat) {
    && (forall k, l | 0 <= k < l < |at| :: at[k].index < at[l].index)
    && (forall k | 0 <= k < |at| :: at[k].index < n)
  }

  lemma TouchedAscends(o: Dialect, at: seq<Opening>, index: nat, e: Event)
    requires Ascending(at, index)
    ensures Ascending(Touched(o, at, index, e), index + 1)
  {
    hide Last;
  }

  lemma {:induction false} StillOpenAscends(o: Dialect, es: seq<Event>)
    ensures Ascending(StillOpen(o, es), |es|)
  {
    if es == [] {
    } else {
      hide Touched;
      StillOpenAscends(o, es[..|es| - 1]);
      TouchedAscends(o, StillOpen(o, es[..|es| - 1]), |es| - 1, es[|es| - 1]);
    }
  }

  /** An opener still open at a later closer lies no further in than the one an
      earlier closer takes. */
  lemma {:induction false} NoCrossing(o: Dialect, es: seq<Event>, j: nat, j': nat, i: nat, i': nat)
    requires StackOrdered(o, es) && i' < j < j' < |es| && es[j].Close? && es[j'].Close?
    requires Opener(o, es[..j], o.Tag(es[j]), 0) == Some(i) && Opener(o, es[..j'], o.Tag(es[j']), 0) == Some(i')
    ensures i' <= i
  {
    hide Opener;
    hide StillOpen;
    hide Recent;
    StackMatches(o, es[..j'], o.Tag(es[j']), 0);
    RecentIsOpen(StillOpen(o, es[..j']), o.Tag(es[j']), 0);
    assert es[..j'][..j] == es[..j];
    OpenSince(o, es[..j'], i', j);
    StillOpenAscends(o, es[..j]);
    var at := StillOpen(o, es[..j]);
    var k :| 0 <= k < |at| && at[k].index == i';
    assert i == at[|at| - 1].index;
  }

  lemma RunsNest(o: Dialect, es: seq<Event>, a: Span, b: Span, i: nat, j: nat, i': nat, j': nat)
    requires StackOrdered(o, es) && Runs(o, es, a, i, j) && Runs(o, es, b, i', j') && j <= j'
    ensures NestedOrDisjoint(a, b)
  {
    hide Opener;
    hide StillOpen;
    hide StackOrdered;
    hide Plain;
    Between(o, es, j, j');
    if j <= i' {
      Between(o, es, j, i');
    } else if j < j' {
      NoCrossing(o, es, j, j', i, i');
      Between(o, es, i', i);
    }
  }

  lemma {:induction false} Between(o: Dialect, es: seq<Event>, i: nat, j: nat)
    requires i <= j <= |es|
    ensures |Plain(o, es[..i])| <= |Plain(o, es[..j])|
  {
    PlainGrows(o, es[..j], i);
    assert es[..j][..i] == es[..i];
  }

  /** Closers in stack order give spans of which any two are nested or disjoint. */
  lemma {:induction false} StackOrderNests(o: Dialect, es: seq<Event>)
    requires StackOrdered(o, es)
    ensures forall k, l | 0 <= k < l < |Spans(o, es)| :: NestedOrDisjoint(Spans(o, es)[k], Spans(o, es)[l])
  {
    forall k, l | 0 <= k < l < |Spans(o, es)| ensures NestedOrDisjoint(Spans(o, es)[k], Spans(o, es)[l]) {
      var i, j := SpanRuns(o, es, k);
      var i', j' := SpanRuns(o, es, l);
      if j <= j' { RunsNest(o, es, Spans(o, es)[k], Spans(o, es)[l], i, j, i', j'); }
      else { RunsNest(o, es, Spans(o, es)[l], Spans(o, es)[k], i', j', i, j); }
    }
  }

  // ---- The scan ----

  /** One open tag. */
  datatype Frame = Frame(tag: string, kind: Option<Kind>, start: nat, end: nat, sawText: bool)

  /** A frame that has seen text spans from its opener to here; one that has not
      would be empty. */
  ghost predicate FrameFor(o: Dialect, es: seq<Event>, op: Opening, f: Frame) {
    var i := op.index;
    && i < |es| && es[i].Open? && f.tag == op.tag == o.Tag(es[i]) && o.Made(es[i]) == Formatter(f.kind)
    && if f.sawText then f.start == |Plain(o, es[..i])| && f.end == |Plain(o, es)|
       else |Plain(o, es[..i])| == |Plain(o, es)|
  }

  ghost predicate Tracks(o: Dialect, es: seq<Event>, open: seq<Frame>) {
    var at := StillOpen(o, es);
    |open| == |at| && forall k | 0 <= k < |at| :: FrameFor(o, es, at[k], open[k])
  }

  function Kept(spans: seq<Span>): seq<Span> {
    if spans == [] then []
    else
      var sp := spans[|spans| - 1];
      if sp.end > sp.start then Kept(spans[..|spans| - 1]) + [sp] else Kept(spans[..|spans| - 1])
  }

  function Grow(f: Frame, base: nat, runes: nat): Frame {
    if f.sawText then f.(end := runes) else f.(sawText := true, start := base, end := runes)
  }

  lemma {:induction false} PlainPush(o: Dialect, es: seq<Event>, e: Event)
    ensures Plain(o, es + [e]) == Plain(o, es) + o.Adds(e)
    ensures forall i | 0 <= i <= |es| :: (es + [e])[..i] == es[..i]
  {
    assert (es + [e])[..|es|] == es;
  }

  /** What one more event does to the openers, the spans and the failure. */
  lemma {:induction false} Pushed(o: Dialect, es: seq<Event>, e: Event)
    ensures StillOpen(o, es + [e]) == Touched(o, StillOpen(o, es), |es|, e)
    ensures Spans(o, es + [e]) == if e.Close? then Spans(o, es) + Ended(o, es, o.Tag(e)) else Spans(o, es)
    ensures Failure(o, es + [e]) == if Failure(o, es).None? && e.Open? && o.Made(e).Failed? then Some(o.Made(e).why)
                                    else Failure(o, es)
  {
    hide Touched;
    hide Ended;
    assert (es + [e])[..|es|] == es;
  }

  lemma {:induction false} FrameGrows(o: Dialect, es: seq<Event>, e: Event, op: Opening, f: Frame)
    requires FrameFor(o, es, op, f) && !e.Open? && !e.Close?
    ensures FrameFor(o, es + [e], op, Grow(f, |Plain(o, es)|, |Plain(o, es + [e])|))
  {
    PlainPush(o, es, e);
    hide Plain;
  }

  lemma FrameStays(o: Dialect, es: seq<Event>, e: Event, op: Opening, f: Frame)
    requires FrameFor(o, es, op, f) && (e.Open? || e.Close?)
    ensures FrameFor(o, es + [e], op, f)
  {
    PlainPush(o, es, e);
    hide Plain;
  }

  lemma NewFrame(o: Dialect, es: seq<Event>, e: Event)
    requires e.Open? && o.Made(e).Formatter?
    ensures FrameFor(o, es + [e], Opening(|es|, o.Tag(e)), Frame(o.Tag(e), o.Made(e).kind, 0, 0, false))
  {
    PlainPush(o, es, e);
    hide Plain;
    assert (es + [e])[..|es|] == es;
  }

  lemma {:induction false} RunStep(o: Dialect, es: seq<Event>, e: Event, open: seq<Frame>, grown: seq<Frame>)
    requires Tracks(o, es, open) && !e.Open? && !e.Close? && |grown| == |open|
    requires forall k | 0 <= k < |open| :: grown[k] == Grow(open[k], |Plain(o, es)|, |Plain(o, es + [e])|)
    ensures Tracks(o, es + [e], grown)
  {
    hide FrameFor;
    hide StillOpen;
    hide Plain;
    hide Grow;
    Pushed(o, es, e);
    var at := StillOpen(o, es);
    forall k | 0 <= k < |at| ensures FrameFor(o, es + [e], at[k], grown[k]) { FrameGrows(o, es, e, at[k], open[k]); }
  }

  lemma OpenStep(o: Dialect, es: seq<Event>, e: Event, open: seq<Frame>)
    requires Tracks(o, es, open) && e.Open? && o.Made(e).Formatter?
    ensures Tracks(o, es + [e], open + [Frame(o.Tag(e), o.Made(e).kind, 0, 0, false)])
  {
    hide FrameFor;
    hide StillOpen;
    Pushed(o, es, e);
    NewFrame(o, es, e);
    var at := StillOpen(o, es);
    forall k | 0 <= k < |at| ensures FrameFor(o, es + [e], at[k], open[k]) { FrameStays(o, es, e, at[k], open[k]); }
  }

  ghost predicate LastOfTag(open: seq<Frame>, tag: string, k: int) {
    -1 <= k < |open| && (k >= 0 ==> open[k].tag == tag) && forall m | k < m < |open| :: open[m].tag != tag
  }

  lemma {:induction false} RecentIsLast(at: seq<Opening>, tag: string)
    ensures var k := Last(at, tag); Recent(at, tag, 0) == if k >= 0 then Some(at[k].index) else None
  {
    if at != [] && at[|at| - 1].tag != tag { RecentIsLast(at[..|at| - 1], tag); }
  }

  /** Looking for the frame finds the opener. */
  lemma {:induction false} FrameIsOpener(o: Dialect, es: seq<Event>, open: seq<Frame>, tag: string, k: int)
    requires Tracks(o, es, open) && LastOfTag(open, tag, k)
    ensures k == Last(StillOpen(o, es), tag)
    ensures Opener(o, es, tag, 0) == if k >= 0 then Some(StillOpen(o, es)[k].index) else None
  {
    hide Plain;
    hide Opener;
    hide StillOpen;
    hide Last;
    hide Recent;
    var at := StillOpen(o, es);
    StackMatches(o, es, tag, 0);
    RecentIsLast(at, tag);
    assert forall m | 0 <= m < |at| :: FrameFor(o, es, at[m], open[m]);
  }

  lemma CloseStep(o: Dialect, es: seq<Event>, e: Event, open: seq<Frame>, k: int)
    requires Tracks(o, es, open) && e.Close? && LastOfTag(open, o.Tag(e), k)
    ensures Tracks(o, es + [e], Removed(open, k))
  {
    hide FrameFor;
    hide StillOpen;
    hide Last;
    hide Opener;
    hide Spans;
    hide Ended;
    hide Failure;
    Pushed(o, es, e);
    FrameIsOpener(o, es, open, o.Tag(e), k);
    var at, open' := StillOpen(o, es), Removed(open, k);
    var at' := Removed(at, k);
    forall m | 0 <= m < |at'| ensures FrameFor(o, es + [e], at'[m], open'[m]) {
      var n := if k >= 0 && m >= k then m + 1 else m;
      assert at'[m] == at[n] && open'[m] == open[n];
      FrameStays(o, es, e, at[n], open[n]);
    }
  }

  lemma CloseEnds(o: Dialect, es: seq<Event>, open: seq<Frame>, tag: string, k: int)
    requires Tracks(o, es, open) && LastOfTag(open, tag, k)
    ensures Ended(o, es, tag)
            == if k >= 0 && open[k].kind.Some? && open[k].sawText && open[k].start < open[k].end
               then [Span(open[k].start, open[k].end, open[k].kind.value)] else []
  {
    FrameIsOpener(o, es, open, tag, k);
    hide Plain;
    hide Opener;
    hide StillOpen;
    hide Last;
    if k >= 0 {
      assert FrameFor(o, es, StillOpen(o, es)[k], open[k]);
    }
  }

  lemma {:induction false} KeptPush(spans: seq<Span>, sp: Span)
    ensures Kept(spans + [sp]) == if sp.end > sp.start then Kept(spans) + [sp] else Kept(spans)
  {
    assert (spans + [sp])[..|spans|] == spans;
  }

  lemma {:induction false} FailureSticks(o: Dialect, a: seq<Event>, b: seq<Event>)
    requires Failure(o, a).Some?
    ensures Failure(o, a + b) == Failure(o, a)
  {
    if b == [] {
      assert a + b == a;
    } else {
      FailureSticks(o, a, b[..|b| - 1]);
      assert (a + b)[..|a + b| - 1] == a + b[..|b| - 1];
    }
  }

  /** The scan has read es: the plain text is theirs, the open frames stand for the
      tags still open, and the closed spans, but for empty ones, are theirs. */
  ghost predicate Scanned(o: Dialect, es: seq<Event>, plain: string, open: seq<Frame>, closed: seq<Span>) {
    plain == Plain(o, es) && Tracks(o, es, open) && Kept(closed) == Spans(o, es) && Failure(o, es).None?
  }

  method AppendRun(ghost o: Dialect, ghost es: seq<Event>, ghost e: Event, ghost closed: seq<Span>,
                   plain: string, open: seq<Frame>, run: string)
    returns (plain': string, open': seq<Frame>)
    requires Scanned(o, es, plain, open, closed) && !e.Open? && !e.Close? && run == o.Adds(e)
    ensures Scanned(o, es + [e], plain', open', closed)
  {
    hide Tracks;
    hide Plain;
    var base, runes := |plain|, |plain| + |run|;
    plain', open' := plain + run, open;
    for k := 0 to |open|
      invariant |open'| == |open|
      invariant forall m | 0 <= m < k :: open'[m] == Grow(open[m], base, runes)
      invariant forall m | k <= m < |open| :: open'[m] == open[m]
    {
      if !open'[k].sawText {
        open' := open'[k := open'[k].(sawText := true, start := base)];
      }
      open' := open'[k := open'[k].(end := runes)];
    }
    PlainPush(o, es, e);
    Pushed(o, es, e);
    RunStep(o, es, e, open, open');
  }

  method CloseTag(ghost o: Dialect, ghost es: seq<Event>, ghost e: Event, ghost plain: string,
                  open: seq<Frame>, closed: seq<Span>, tag: string)
    returns (open': seq<Frame>, closed': seq<Span>)
    requires Scanned(o, es, plain, open, closed) && e.Close? && tag == o.Tag(e)
    ensures Scanned(o, es + [e], plain, open', closed')
  {
    hide Tracks;
    hide Plain;
    hide Spans;
    open', closed' := open, closed;
    var k := |open| - 1;
    while k >= 0 && open[k].tag != tag
      invariant -1 <= k < |open|
      invariant forall m | k < m < |open| :: open[m].tag != tag
    {
      k := k - 1;
    }
    if k >= 0 {
      if open[k].kind.Some? && open[k].sawText {
        var sp := Span(open[k].start, open[k].end, open[k].kind.value);
        KeptPush(closed, sp);
        closed' := closed + [sp];
      }
      open' := open[..k] + open[k + 1..];
    }
    PlainPush(o, es, e);
    Pushed(o, es, e);
    CloseStep(o, es, e, open, k);
    CloseEnds(o, es, open, tag, k);
  }

  datatype Tokens = Tokens(plain: string, spans: seq<Span>) | Error(why: string)

  /** tokenizeHTMLOpts; its plainStart and i are equal whenever read. */
  method Tokenize(o: Dialect, text: string) returns (r: Tokens)
    ensures match Failure(o, Lex(text))
            case Some(why) => r == Error(why)
            case None => r.Tokens? && r.plain == Plain(o, Lex(text)) && Kept(r.spans) == Spans(o, Lex(text))
  {
    hide Scanned;
    hide Lex;
    hide ParseTag;
    hide Source;
    hide Find;
    hide Reads;
    hide Plain;
    hide Spans;
    hide Failure;
    hide Kept;
    hide StillOpen;
    hide Touched;
    hide FrameFor;
    hide Tracks;
    var plain, open, closed, i := "", [], [], 0;
    ghost var es: seq<Event> := [];
    NothingScanned(o, text);
    assert text[0..] == text;
    while i < |text| && Find(text[i..], '<') < |text| - i
      invariant i <= |text| && Scanned(o, es, plain, open, closed) && Reads(text, es, text[i..])
    {
      var at := i + Find(text[i..], '<');
      if at > i {
        plain, open := AppendRun(o, es, Data(text[i..at]), closed, plain, open, o.unescape(text[i..at]));
        ReadData(text, es, text[i..]);
        Slices(text, i, at - i);
        es := es + [Data(text[i..at])];
      }
      var e := ParseTag(text[at..]);
      var consumed := |Source(e)|;
      ReadMark(text, es, text[at..]);
      Slices(text, at, consumed);
      if e.Close? {
        open, closed := CloseTag(o, es, e, plain, open, closed, o.Tag(e));
      } else if e.Open? {
        if o.Made(e).Failed? {
          FirstFailure(o, text, es, e, text[at + consumed..], plain, open, closed);
          return Error(o.Made(e).why);
        }
        OpenScanned(o, es, e, plain, open, closed);
        open := open + [Frame(o.Tag(e), o.Made(e).kind, 0, 0, false)];
      } else {
        plain, open := AppendRun(o, es, e, closed, plain, open, "<");
      }
      es := es + [e];
      i := at + consumed;
    }
    assert text[|text|..] == "";
    if |text| > i {
      plain, open := AppendRun(o, es, Data(text[i..]), closed, plain, open, o.unescape(text[i..]));
      ReadData(text, es, text[i..]);
      Slices(text, i, |text| - i);
      assert text[i..|text|] == text[i..];
      es := es + [Data(text[i..])];
    }
    AllScanned(o, text, es, plain, open, closed);
    r := Tokens(plain, closed);
  }

  /** The scan of text has read es and has s still to read. */
  ghost predicate Reads(text: string, es: seq<Event>, s: string) { Lex(text) == es + Lex(s) }

  lemma Slices(text: string, i: nat, n: nat)
    requires i + n <= |text|
    ensures text[i..][..n] == text[i..i + n] && text[i..][n..] == text[i + n..]
  {}

  lemma {:induction false} ReadData(text: string, es: seq<Event>, s: string)
    requires Reads(text, es, s) && Find(s, '<') > 0
    ensures var n := Find(s, '<'); Reads(text, es + [Data(s[..n])], s[n..])
  {
    assert First(s) == Data(s[..Find(s, '<')]);
  }

  lemma ReadMark(text: string, es: seq<Event>, s: string)
    requires s != "" && s[0] == '<' && Reads(text, es, s)
    ensures var e := ParseTag(s); !e.Data? && 1 <= |Source(e)| <= |s| && Reads(text, es + [e], s[|Source(e)|..])
  {
    hide Source;
    assert Find(s, '<') == 0 && First(s) == ParseTag(s);
  }

  lemma {:induction false} FirstFailure(o: Dialect, text: string, es: seq<Event>, e: Event, s: string,
                     plain: string, open: seq<Frame>, closed: seq<Span>)
    requires Scanned(o, es, plain, open, closed) && e.Open? && o.Made(e).Failed? && Reads(text, es + [e], s)
    ensures Failure(o, Lex(text)) == Some(o.Made(e).why)
  {
    Pushed(o, es, e);
    FailureSticks(o, es + [e], Lex(s));
  }

  lemma {:induction false} AllScanned(o: Dialect, text: string, es: seq<Event>, plain: string, open: seq<Frame>,
                                      closed: seq<Span>)
    requires Scanned(o, es, plain, open, closed) && Reads(text, es, "")
    ensures Failure(o, Lex(text)).None? && plain == Plain(o, Lex(text)) && Kept(closed) == Spans(o, Lex(text))
  {
    assert es + [] == es;
  }

  lemma OpenScanned(o: Dialect, es: seq<Event>, e: Event, plain: string, open: seq<Frame>, closed: seq<Span>)
    requires Scanned(o, es, plain, open, closed) && e.Open? && o.Made(e).Formatter?
    ensures Scanned(o, es + [e], plain, open + [Frame(o.Tag(e), o.Made(e).kind, 0, 0, false)], closed)
  {
    hide Tracks;
    hide StillOpen;
    hide Spans;
    hide Failure;
    Pushed(o, es, e);
    OpenStep(o, es, e, open);
    PlainPush(o, es, e);
  }

  lemma NothingScanned(o: Dialect, text: string)
    ensures Scanned(o, [], "", [], []) && Reads(text, [], text)
  {
    assert [] + Lex(text) == Lex(text);
  }

  // ---- A tagged text ----

  /** Free of '<', so that nothing in it is a tag. */
  ghost predicate IsText(s: string) { s != "" && forall i | 0 <= i < |s| :: s[i] != '<' }

  /** The events of a tagged text amid text. */
  function Element(before: string, name: string, attrs: string, body: string, closer: string, after: string)
    : seq<Event>
  {
    [Data(before)] + [Open(name, attrs)] + [Data(body)] + [Close(closer, "")] + [Data(after)]
  }

  lemma {:induction false} ElementIsLexed(before: string, name: string, attrs: string, body: string,
                                          closer: string, after: string)
    requires IsText(before) && IsText(body) && IsText(after) && Shaped(name, attrs) && Shaped(closer, "")
    ensures Lex(before + ("<" + name + attrs + ">") + body + ("</" + closer + ">") + after)
            == Element(before, name, attrs, body, closer, after)
  {
    hide Lex;
    WrittenIsLexed(Element(before, name, attrs, body, closer, after));
    ElementIsWritten(before, name, attrs, body, closer, after);
  }

  lemma ElementIsWritten(before: string, name: string, attrs: string, body: string, closer: string, after: string)
    ensures Written(Element(before, name, attrs, body, closer, after))
            == before + ("<" + name + attrs + ">") + body + ("</" + closer + ">") + after
  {
    var es1 := [Data(before)];
    var es2 := es1 + [Open(name, attrs)];
    var es3 := es2 + [Data(body)];
    var es4 := es3 + [Close(closer, "")];
    TagSource(name, attrs);
    TagSource(closer, "");
    assert es1[..0] == [] && Written(es1) == before;
    hide Written;
    hide Source;
    WrittenPush(es1, Open(name, attrs));
    WrittenPush(es2, Data(body));
    WrittenPush(es3, Close(closer, ""));
    WrittenPush(es4, Data(after));
    DataSource(body);
    DataSource(after);
  }

  lemma TagSource(name: string, attrs: string)
    ensures Source(Open(name, attrs)) == "<" + name + attrs + ">"
    ensures attrs == "" ==> Source(Close(name, attrs)) == "</" + name + ">"
  {
    if attrs == "" { assert attrs + ">" == ">"; }
  }

  lemma DataSource(raw: string)
    ensures Source(Data(raw)) == raw
  {}

  lemma {:induction false} NothingYet(o: Dialect)
    ensures Plain(o, []) == "" && Spans(o, []) == [] && Failure(o, []) == None
    ensures forall e: Event :: [] + [e] == [e]
  {}

  lemma {:induction false} ElementOpener(o: Dialect, before: string, name: string, attrs: string, body: string)
    ensures Opener(o, [Data(before)] + [Open(name, attrs)] + [Data(body)], o.lower(name), 0) == Some(1)
  {
    var es := [Data(before)] + [Open(name, attrs)];
    assert (es + [Data(body)])[..2] == es;
  }

  lemma {:induction false} ElementIsSpanned(o: Dialect, before: string, name: string, attrs: string, body: string,
                                            closer: string, after: string, kind: Option<Kind>)
    requires o.lower(name) == o.lower(closer) && o.formatter(o.lower(name), attrs) == Formatter(kind)
    ensures var es := Element(before, name, attrs, body, closer, after);
            var start, end := |o.unescape(before)|, |o.unescape(before) + o.unescape(body)|;
            && Failure(o, es) == None
            && Plain(o, es) == o.unescape(before) + o.unescape(body) + o.unescape(after)
            && Spans(o, es) == if kind.Some? && start < end then [Span(start, end, kind.value)] else []
  {
    hide Plain;
    hide Spans;
    hide Failure;
    hide StillOpen;
    hide Opener;
    var es1 := [Data(before)];
    var es2 := es1 + [Open(name, attrs)];
    var es3 := es2 + [Data(body)];
    var es4 := es3 + [Close(closer, "")];
    NothingYet(o);
    PlainPush(o, [], Data(before));
    PlainPush(o, es1, Open(name, attrs));
    PlainPush(o, es2, Data(body));
    PlainPush(o, es3, Close(closer, ""));
    PlainPush(o, es4, Data(after));
    assert es3[..1] == es1 && es3[1] == Open(name, attrs);
    assert Plain(o, es3) == o.unescape(before) + o.unescape(body);
    ElementOpener(o, before, name, attrs, body);
    Pushed(o, [], Data(before));
    Pushed(o, es1, Open(name, attrs));
    Pushed(o, es2, Data(body));
    Pushed(o, es3, Close(closer, ""));
    Pushed(o, es4, Data(after));
    assert Spans(o, es4) == Spans(o, es3) + Ended(o, es3, o.lower(name));
  }

  /** A tagged text amid text: its tags are gone, and one span of the kind of the
      tag, if it has one, lies over exactly what they enclose. */
  lemma {:induction false} ElementSpan(o: Dialect, before: string, name: string, attrs: string, body: string,
                                       closer: string, after: string, kind: Option<Kind>)
    requires IsText(before) && IsText(body) && IsText(after) && Shaped(name, attrs) && Shaped(closer, "")
    requires o.lower(name) == o.lower(closer) && o.formatter(o.lower(name), attrs) == Formatter(kind)
    ensures var es := Lex(before + ("<" + name + attrs + ">") + body + ("</" + closer + ">") + after);
            var start, end := |o.unescape(before)|, |o.unescape(before) + o.unescape(body)|;
            && Failure(o, es) == None
            && Plain(o, es) == o.unescape(before) + o.unescape(body) + o.unescape(after)
            && Spans(o, es) == if kind.Some? && start < end then [Span(start, end, kind.value)] else []
  {
    hide Lex;
    hide Element;
    hide Plain;
    hide Spans;
    hide Failure;
    ElementIsLexed(before, name, attrs, body, closer, after);
    ElementIsSpanned(o, before, name, attrs, body, closer, after, kind);
  }

  // ---- The whole pass ----

  method DropZeroLength(spans: seq<Span>) returns (r: seq<Span>)
    ensures r == Kept(spans)
  {
    r := [];
    for i := 0 to |spans|
      invariant r == Kept(spans[..i])
    {
      assert spans[..i + 1] == spans[..i] + [spans[i]];
      KeptPush(spans[..i], spans[i]);
      if spans[i].end > spans[i].start { r := r + [spans[i]]; }
    }
    assert spans[..|spans|] == spans;
  }

  datatype Message = Message(text: string, entities: seq<Entity>) | Refused(why: string)

  /** Build on HTML whose outer whitespace is stripped: the text is the plain text,
      over every UTF-16 position lie as many entities of each shape as matched tags
      of it, and every entity marks whole runes; if no two spans of a shape overlap
      or touch, the very text of a span of its kind. */
  method Build(o: Dialect, text: string) returns (r: Message)
    ensures r.Refused? <==> Failure(o, Lex(text)).Some?
    ensures r.Refused? ==> Some(r.why) == Failure(o, Lex(text))
    ensures r.Message? ==> r.text == Plain(o, Lex(text)) && Sorted(ByOffsetThenLength, r.entities)
    ensures r.Message? ==>
              && InBounds(r.text, Spans(o, Lex(text)))
              && forall shape, x ::
                   Cover(r.entities, shape, x) == Cover(SpanEntities(r.text, Spans(o, Lex(text))), shape, x)
    ensures r.Message? && Separate(Spans(o, Lex(text))) ==>
              && InBounds(r.text, Spans(o, Lex(text)))
              && multiset(r.entities) == multiset(SpanEntities(r.text, Spans(o, Lex(text))))
              && forall e | e in r.entities :: MarksSpan(r.text, Spans(o, Lex(text)), e)
    ensures r.Message? ==> forall e | e in r.entities :: exists from, to :: Marks(r.text, e, from, to)
  {
    hide Lex;
    hide Failure;
    hide Plain;
    hide Spans;
    hide Kept;
    hide Emit;
    hide Merge;
    hide Cover;
    hide SpanEntities;
    hide Separate;
    hide InBounds;
    hide Marks;
    hide MarksSpan;
    var tokens := Tokenize(o, text);
    if tokens.Error? {
      return Refused(tokens.why);
    }
    var plain := tokens.plain;
    var spans := DropZeroLength(tokens.spans);
    SpansInText(o, Lex(text));
    var b := new Builder();
    EmitTokens(b, plain, spans);
    var entities := MergeAdjacent(b.entities);
    MergeSorts(b.entities);
    forall shape, x ensures Cover(entities, shape, x) == Cover(SpanEntities(plain, spans), shape, x) {
      BuildKeepsMeaning(plain, spans, shape, x);
    }
    forall e | e in entities ensures exists from, to :: Marks(plain, e, from, to) { MergedMarks(plain, spans, e); }
    if Separate(spans) {
      CutThenMergeIsIdentity(plain, spans);
      forall e | e in entities ensures MarksSpan(plain, spans, e) { MergedMarksSpan(plain, spans, e); }
    }
    r := Message(b.message, entities);
  }
}
