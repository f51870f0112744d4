/** The HTML of a message as a sequence of lexical events
    (internal/mtproto/pyformat/pyformat.go, parseTag and the scan of
    tokenizeHTMLOpts). */
module Markup {
  import opened Options

  datatype Event =
    | Data(raw: string)                    // a run up to the next '<'
    | Stray                                // a '<' that opens no tag
    | Open(name: string, attrs: string)
    | Close(name: string, attrs: string)

  /** The characters an event was read from. */
  function Source(e: Event): string {
    match e
    case Data(raw) => raw
    case Stray => "<"
    case Open(name, attrs) => "<" + Inside(name, attrs)
    case Close(name, attrs) => "</" + Inside(name, attrs)
  }

  function Inside(name: string, attrs: string): string { name + (attrs + ">") }

  function Written(es: seq<Event>): string {
    if es == [] then "" else Written(es[..|es| - 1]) + Source(es[|es| - 1])
  }

  // ---- Tags ----

  predicate EndsName(c: char) { c == '>' || c == ' ' || c == '\t' || c == '\n' || c == '/' }

  function NameLength(s: string): (n: nat)
    ensures n <= |s| && (n < |s| ==> EndsName(s[n]))
    ensures forall i | 0 <= i < n :: !EndsName(s[i])
  {
    if s == "" || EndsName(s[0]) then 0 else 1 + NameLength(s[1..])
  }

  /** The position of the first c, or the length. */
  function Find(s: string, c: char): (n: nat)
    ensures n <= |s| && (n < |s| ==> s[n] == c)
    ensures forall i | 0 <= i < n :: s[i] != c
  {
    if s == "" || s[0] == c then 0 else 1 + Find(s[1..], c)
  }

  /** The name and the attributes at the head of what follows '<' or '</'. */
  function Parts(rest: string): Option<(string, string)> {
    var end := NameLength(rest);
    if end == 0 then None
    else
      var gt := Find(rest[end..], '>');
      if gt == |rest| - end then None else Some((rest[..end], rest[end..][..gt]))
  }

  /** What a '<' at the head of s starts: a tag, or Stray. */
  function ParseTag(s: string): Event
    requires s != "" && s[0] == '<'
  {
    if |s| < 2 then Stray
    else if s[1] == '/' then
      match Parts(s[2..])
      case None => Stray
      case Some(p) => Close(p.0, p.1)
    else
      match Parts(s[1..])
      case None => Stray
      case Some(p) => Open(p.0, p.1)
  }

  /** The tag grammar: a non-empty name free of delimiters, then attributes that
      start at a delimiter and run to the first '>'. */
  ghost predicate Shaped(name: string, attrs: string) {
    && name != "" && (forall i | 0 <= i < |name| :: name[i] !in "> \t\n/")
    && (attrs != "" ==> attrs[0] in " \t\n/")
    && (forall i | 0 <= i < |attrs| :: attrs[i] != '>')
  }

  ghost predicate TagShaped(e: Event) { (e.Open? || e.Close?) && Shaped(e.name, e.attrs) }

  lemma {:induction false} NameIs(name: string, tail: string)
    requires forall i | 0 <= i < |name| :: !EndsName(name[i])
    requires tail != "" && EndsName(tail[0])
    ensures NameLength(name + tail) == |name|
  {
    assert forall i | 0 <= i < |name| :: (name + tail)[i] == name[i];
    assert (name + tail)[|name|] == tail[0];
  }

  lemma {:induction false} FindIs(attrs: string, tail: string)
    requires forall i | 0 <= i < |attrs| :: attrs[i] != '>'
    ensures Find(attrs + ">" + tail, '>') == |attrs|
  {
    assert forall i | 0 <= i < |attrs| :: (attrs + ">" + tail)[i] == attrs[i];
    assert (attrs + ">" + tail)[|attrs|] == '>';
  }

  lemma PartsAreParsed(name: string, attrs: string, tail: string)
    requires Shaped(name, attrs)
    ensures Parts(Inside(name, attrs) + tail) == Some((name, attrs))
  {
    var rest := Inside(name, attrs) + tail;
    var after := attrs + ">" + tail;
    assert rest == name + after;
    assert after[0] == if attrs == "" then '>' else attrs[0];
    NameIs(name, after);
    FindIs(attrs, tail);
    assert rest[|name|..] == after && rest[..|name|] == name && after[..|attrs|] == attrs;
  }

  lemma InsideStarts(name: string, attrs: string)
    requires Shaped(name, attrs)
    ensures Inside(name, attrs) != "" && Inside(name, attrs)[0] != '/'
  {
    assert Inside(name, attrs)[0] == name[0];
  }

  /** Everything of the tag grammar is parsed, and as itself. */
  lemma TagsAreParsed(e: Event, tail: string)
    requires TagShaped(e)
    ensures ParseTag(Source(e) + tail) == e
  {
    hide Parts;
    hide Shaped;
    hide Inside;
    PartsAreParsed(e.name, e.attrs, tail);
    InsideStarts(e.name, e.attrs);
    var inside := Inside(e.name, e.attrs);
    var s := Source(e) + tail;
    if e.Close? { assert s[2..] == inside + tail; } else { assert s[1..] == inside + tail; }
  }

  lemma PartsAreShaped(rest: string)
    requires Parts(rest).Some?
    ensures var p := Parts(rest).value; Shaped(p.0, p.1) && Inside(p.0, p.1) <= rest
  {
    var p := Parts(rest).value;
    var body := rest[|p.0|..];
    assert p.1 != "" ==> p.1[0] == body[0];
    assert body == p.1 + ">" + body[|p.1| + 1..];
    assert rest == Inside(p.0, p.1) + body[|p.1| + 1..];
  }

  /** Only the tag grammar is parsed; a parsed event is a prefix of its text. */
  lemma ParsedIsShaped(s: string)
    requires s != "" && s[0] == '<'
    ensures var e := ParseTag(s); Source(e) <= s && (e == Stray || TagShaped(e))
  {
    hide Parts;
    hide Inside;
    var e := ParseTag(s);
    if e.Close? {
      PartsAreShaped(s[2..]);
      assert s == "</" + s[2..];
    } else if e.Open? {
      PartsAreShaped(s[1..]);
      assert s == "<" + s[1..];
    }
  }

  /** A '<' is data exactly when no tag starts there. */
  lemma StrayIff(s: string)
    requires s != "" && s[0] == '<'
    ensures ParseTag(s) == Stray <==> forall e | TagShaped(e) :: !(Source(e) <= s)
  {
    ParsedIsShaped(s);
    forall e | TagShaped(e) && Source(e) <= s ensures ParseTag(s) == e {
      TagsAreParsed(e, s[|Source(e)|..]);
      assert s == Source(e) + s[|Source(e)|..];
    }
  }

  // ---- Events ----

  function First(s: string): (e: Event)
    requires s != ""
    ensures Source(e) != "" && Source(e) <= s
  {
    var lt := Find(s, '<');
    if lt > 0 then Data(s[..lt]) else ParsedIsShaped(s); ParseTag(s)
  }

  function Lex(s: string): seq<Event>
    decreases |s|
  {
    if s == "" then [] else [First(s)] + Lex(s[|Source(First(s))|..])
  }

  lemma {:induction false} WrittenAppend(a: seq<Event>, b: seq<Event>)
    ensures Written(a + b) == Written(a) + Written(b)
  {
    hide Source;
    if b == [] {
      assert a + b == a;
    } else {
      WrittenAppend(a, b[..|b| - 1]);
      assert (a + b)[..|a + b| - 1] == a + b[..|b| - 1];
    }
  }

  lemma {:induction false} WrittenPush(es: seq<Event>, e: Event)
    ensures Written(es + [e]) == Written(es) + Source(e)
  {
    assert (es + [e])[..|es|] == es;
  }

  /** Lexing loses nothing: the events write out as the text. */
  lemma {:induction false} LexIsLossless(s: string)
    ensures Written(Lex(s)) == s
    decreases |s|
  {
    hide Source;
    hide First;
    if s != "" {
      var e := First(s);
      var rest := s[|Source(e)|..];
      LexIsLossless(rest);
      WrittenAppend([e], Lex(rest));
      assert [e][..0] == [] && s == Source(e) + rest;
    }
  }

  /** Data runs are non-empty and hold no '<'; every other event is a tag or a
      stray '<'. */
  ghost predicate Lexical(e: Event) {
    match e
    case Data(raw) => raw != "" && forall i | 0 <= i < |raw| :: raw[i] != '<'
    case Stray => true
    case _ => TagShaped(e)
  }

  lemma {:induction false} LexIsLexical(s: string)
    ensures forall i | 0 <= i < |Lex(s)| :: Lexical(Lex(s)[i])
    decreases |s|
  {
    if s != "" {
      LexIsLexical(s[|Source(First(s))|..]);
      if Find(s, '<') == 0 { ParsedIsShaped(s); }
    }
  }

  /** Data runs and tags in which no two data runs touch. */
  ghost predicate Apart(es: seq<Event>) {
    && (forall i | 0 <= i < |es| :: Lexical(es[i]) && es[i] != Stray)
    && (forall i | 0 <= i < |es| - 1 :: es[i].Data? ==> !es[i + 1].Data?)
  }

  lemma ApartTail(es: seq<Event>)
    requires es != [] && Apart(es)
    ensures Lexical(es[0]) && es[0] != Stray && Apart(es[1..])
    ensures es[0].Data? && es[1..] != [] ==> !es[1..][0].Data?
  {
    hide Lexical;
  }

  lemma WrittenNothing()
    ensures Written([]) == ""
  {}

  lemma {:induction false} WrittenHead(es: seq<Event>)
    requires es != []
    ensures Written(es) == Source(es[0]) + Written(es[1..])
  {
    hide Source;
    assert es == [es[0]] + es[1..] && [es[0]][..0] == [];
    WrittenAppend([es[0]], es[1..]);
  }

  lemma {:induction false} FirstWritten(e: Event, tail: string)
    requires Lexical(e) && e != Stray && (e.Data? && tail != "" ==> tail[0] == '<')
    ensures Source(e) != "" && First(Source(e) + tail) == e
  {
    hide ParseTag;
    var s := Source(e) + tail;
    if e.Data? {
      assert forall i | 0 <= i < |e.raw| :: s[i] == e.raw[i];
      assert tail != "" ==> s[|e.raw|] == '<';
      assert s[..|e.raw|] == e.raw;
    } else {
      assert s[0] == '<';
      TagsAreParsed(e, tail);
    }
  }

  lemma {:induction false} LexStep(e: Event, tail: string)
    requires Source(e) != "" && First(Source(e) + tail) == e
    ensures Lex(Source(e) + tail) == [e] + Lex(tail)
  {
    hide First;
    hide Source;
    assert (Source(e) + tail)[|Source(e)|..] == tail;
  }

  /** What is written out of data runs and tags is read back as them. */
  lemma {:induction false} WrittenIsLexed(es: seq<Event>)
    requires Apart(es)
    ensures Lex(Written(es)) == es
  {
    if es == [] {
    } else {
      hide First;
      hide Source;
      hide Lex;
      hide Lexical;
      hide Written;
      hide Apart;
      WrittenHead(es);
      ApartTail(es);
      var e, rest := es[0], es[1..];
      var tail := Written(rest);
      WrittenIsLexed(rest);
      if rest == [] { WrittenNothing(); } else if e.Data? { WrittenStarts(rest); }
      FirstWritten(e, tail);
      LexStep(e, tail);
    }
  }

  lemma {:induction false} WrittenStarts(es: seq<Event>)
    requires es != [] && Apart(es) && !es[0].Data?
    ensures Written(es) != "" && Written(es)[0] == '<'
  {
    hide Written;
    WrittenHead(es);
  }
}
