/**
 * The HTML witness: a parser-callback object that collects the displayed text
 * and the styled ranges of native inline HTML, and rejects anything else.
 * `Step` gives each callback as a function of the recorded state; the class does
 * the same in place.
 */
module HtmlWitness {
  import opened Results

  /** The element names the witness knows, and any other. */
  datatype Tag = P | Br | Strong | B | Code | Em | I | Del | S | A | Unknown(name: string)

  /** Callbacks in the order the parser makes them; attributes only matter by being present. */
  datatype Event =
    | Data(text: string)
    | Start(tag: Tag, attrs: bool)
    | End(tag: Tag)
    | StartEnd(tag: Tag, attrs: bool)
    | OtherMarkup

  datatype Span = Span(start: nat, end: nat, style: Tag)

  datatype Open = Open(tag: Tag, at: nat)

  datatype Record = Record(text: string, stack: seq<Open>, spans: seq<Span>)

  const BLANK := Record("", [], [])

  function Style(tag: Tag): Tag {
    if tag == B then Strong else tag
  }

  function Opened(r: Record, tag: Tag, attrs: bool): Option<Record> {
    if tag.Unknown? || attrs then None
    else if tag == Br then Some(r.(text := r.text + "\n"))
    else Some(r.(stack := r.stack + [Open(tag, |r.text|)]))
  }

  function Closed(r: Record, tag: Tag): Option<Record> {
    if tag.Unknown? || tag == Br || r.stack == [] || r.stack[|r.stack| - 1].tag != tag then None
    else
      var top := r.stack[|r.stack| - 1];
      var popped := r.(stack := r.stack[..|r.stack| - 1]);
      // An offset never exceeds the text it was taken from; see `Nested`.
      if tag == P then Some(popped)
      else Some(popped.(spans := r.spans + [Span(top.at, |r.text|, Style(tag))]))
  }

  /** One callback; `None` is a failed assertion. */
  function Step(r: Record, e: Event): Option<Record> {
    match e
    case Data(text) => Some(r.(text := r.text + text))
    case Start(tag, attrs) => Opened(r, tag, attrs)
    case End(tag) => Closed(r, tag)
    case StartEnd(tag, attrs) => if tag == Br then Opened(r, tag, attrs) else None
    case OtherMarkup => None
  }

  function Run(r: Record, events: seq<Event>): Option<Record> {
    if events == [] then Some(r)
    else match Run(r, events[..|events| - 1])
         case None => None
         case Some(m) => Step(m, events[|events| - 1])
  }

  class Witness {
    var text: string
    var stack: seq<Open>
    var spans: seq<Span>

    ghost function Seen(): Record
      reads this
    {
      Record(text, stack, spans)
    }

    constructor ()
      ensures Seen() == BLANK
    {
      text, stack, spans := "", [], [];
    }

    method HandleData(data: string)
      modifies this
      ensures Some(Seen()) == Step(old(Seen()), Data(data))
    {
      text := text + data;
    }

    method HandleStart(tag: Tag, attrs: bool) returns (ok: bool)
      modifies this
      ensures ok <==> Step(old(Seen()), Start(tag, attrs)).Some?
      ensures if ok then Some(Seen()) == Step(old(Seen()), Start(tag, attrs)) else Seen() == old(Seen())
    {
      if tag.Unknown? || attrs {
        return false;
      }
      if tag == Br {
        text := text + "\n";
      } else {
        stack := stack + [Open(tag, |text|)];
      }
      ok := true;
    }

    method HandleEnd(tag: Tag) returns (ok: bool)
      modifies this
      ensures ok <==> Step(old(Seen()), End(tag)).Some?
      ensures if ok then Some(Seen()) == Step(old(Seen()), End(tag)) else Seen() == old(Seen())
    {
      if tag.Unknown? || tag == Br || stack == [] || stack[|stack| - 1].tag != tag {
        return false;
      }
      var start := stack[|stack| - 1].at;
      stack := stack[..|stack| - 1];
      if tag != P {
        spans := spans + [Span(start, |text|, if tag == B then Strong else tag)];
      }
      ok := true;
    }

    method HandleStartEnd(tag: Tag, attrs: bool) returns (ok: bool)
      modifies this
      ensures ok <==> Step(old(Seen()), StartEnd(tag, attrs)).Some?
      ensures if ok then Some(Seen()) == Step(old(Seen()), StartEnd(tag, attrs)) else Seen() == old(Seen())
    {
      if tag != Br {
        return false;
      }
      ok := HandleStart(tag, attrs);
    }

    /** The parser feeding a whole document; stops at the first failed assertion. */
    method Feed(events: seq<Event>) returns (ok: bool)
      modifies this
      ensures ok <==> Run(old(Seen()), events).Some?
      ensures ok ==> Some(Seen()) == Run(old(Seen()), events)
    {
      for i := 0 to |events|
        invariant Run(old(Seen()), events[..i]) == Some(Seen())
      {
        RunPrefix(old(Seen()), events, i);
        assert events[..i + 1][..i] == events[..i];
        match events[i] {
          case Data(data) =>
            HandleData(data);
            ok := true;
          case Start(tag, attrs) => ok := HandleStart(tag, attrs);
          case End(tag) => ok := HandleEnd(tag);
          case StartEnd(tag, attrs) => ok := HandleStartEnd(tag, attrs);
          case OtherMarkup => ok := false;
        }
        if !ok {
          return;
        }
      }
      assert events[..|events|] == events;
      ok := true;
    }
  }

  lemma {:induction false} RunConcat(r: Record, a: seq<Event>, b: seq<Event>)
    ensures Run(r, a + b) == if Run(r, a).None? then None else Run(Run(r, a).value, b)
  {
    if b == [] {
      assert a + b == a;
    } else {
      var n := |b| - 1;
      RunConcat(r, a, b[..n]);
      assert (a + b)[..|a + b| - 1] == a + b[..n];
    }
  }

  lemma RunPrefix(r: Record, events: seq<Event>, i: nat)
    requires i < |events|
    ensures Run(r, events[..i + 1]).None? ==> Run(r, events).None?
  {
    RunConcat(r, events[..i + 1], events[i + 1..]);
    assert events[..i + 1] + events[i + 1..] == events;
  }

  // ----- Ranges are nested or disjoint --------------------------------------

  predicate Within(a: Span, b: Span) {
    b.start <= a.start && a.end <= b.end
  }

  predicate Laminar(a: Span, b: Span) {
    a.end <= b.start || b.end <= a.start || Within(a, b) || Within(b, a)
  }

  predicate SpansFit(r: Record) {
    forall i :: 0 <= i < |r.spans| ==> r.spans[i].start <= r.spans[i].end <= |r.text|
  }

  predicate SpansLaminar(r: Record) {
    forall i, j :: 0 <= i < j < |r.spans| ==> Laminar(r.spans[i], r.spans[j])
  }

  /** An open element started inside the text, and no recorded range straddles its start. */
  predicate Nested(r: Record) {
    forall k :: 0 <= k < |r.stack| ==>
                  && r.stack[k].at <= |r.text|
                  && forall i :: 0 <= i < |r.spans| ==>
                                   r.spans[i].end <= r.stack[k].at || r.stack[k].at <= r.spans[i].start
  }

  /** Opening offsets do not decrease towards the top of the stack. */
  predicate StackOrdered(r: Record) {
    forall k, l :: 0 <= k < l < |r.stack| ==> r.stack[k].at <= r.stack[l].at
  }

  predicate Consistent(r: Record) {
    SpansFit(r) && SpansLaminar(r) && Nested(r) && StackOrdered(r)
  }

  lemma ConsistentStep(r: Record, e: Event)
    requires Consistent(r) && Step(r, e).Some?
    ensures Consistent(Step(r, e).value)
  {
    var r' := Step(r, e).value;
    if e.End? {
      var top := r.stack[|r.stack| - 1];
      assert forall k :: 0 <= k < |r'.stack| ==> r'.stack[k] == r.stack[k] && r.stack[k].at <= top.at;
      assert forall i :: 0 <= i < |r.spans| ==> r'.spans[i] == r.spans[i];
    }
  }

  /** Whatever the callbacks, if no assertion fails then ranges lie in the text and any two are nested or disjoint. */
  lemma {:induction false} RangesAreLaminar(events: seq<Event>)
    requires Run(BLANK, events).Some?
    ensures Consistent(Run(BLANK, events).value)
  {
    if events != [] {
      var n := |events| - 1;
      RangesAreLaminar(events[..n]);
      ConsistentStep(Run(BLANK, events[..n]).value, events[n]);
    }
  }

  // ----- Inline trees -------------------------------------------------------

  datatype Inline =
    | Text(text: string)
    | Break(selfClosing: bool)
    | Element(tag: Tag, children: seq<Inline>)

  predicate WellFormed(t: Inline) {
    t.Element? ==>
      !t.tag.Unknown? && t.tag != Br && forall i :: 0 <= i < |t.children| ==> WellFormed(t.children[i])
  }

  predicate AllWellFormed(ts: seq<Inline>) {
    forall i :: 0 <= i < |ts| ==> WellFormed(ts[i])
  }

  function Events(t: Inline): seq<Event>
    decreases t, 1
  {
    match t
    case Text(s) => [Data(s)]
    case Break(selfClosing) => [if selfClosing then StartEnd(Br, false) else Start(Br, false)]
    case Element(tag, children) => [Start(tag, false)] + EventsAll(children) + [End(tag)]
  }

  function EventsAll(ts: seq<Inline>): seq<Event>
    decreases ts, 0
  {
    if ts == [] then [] else EventsAll(ts[..|ts| - 1]) + Events(ts[|ts| - 1])
  }

  function TextOf(t: Inline): string
    decreases t, 1
  {
    match t
    case Text(s) => s
    case Break(_) => "\n"
    case Element(_, children) => TextAll(children)
  }

  function TextAll(ts: seq<Inline>): string
    decreases ts, 0
  {
    if ts == [] then "" else TextAll(ts[..|ts| - 1]) + TextOf(ts[|ts| - 1])
  }

  /** The ranges of a tree laid out at offset `at`: children first, then the element itself; paragraphs have none. */
  function SpansOf(t: Inline, at: nat): seq<Span>
    decreases t, 1
  {
    match t
    case Element(tag, children) =>
      SpansAll(children, at) + OwnSpans(tag, at, at + |TextAll(children)|)
    case _ => []
  }

  function SpansAll(ts: seq<Inline>, at: nat): seq<Span>
    decreases ts, 0
  {
    if ts == [] then []
    else
      var front := ts[..|ts| - 1];
      SpansAll(front, at) + SpansOf(ts[|ts| - 1], at + |TextAll(front)|)
  }

  /** The record left by a forest that was read after `r`. */
  function Grown(r: Record, text: string, spans: seq<Span>): Record {
    Record(r.text + text, r.stack, r.spans + spans)
  }

  /** Reading `events` after `r` adds exactly this text and these ranges, and leaves the stack as it was. */
  predicate Yields(r: Record, events: seq<Event>, text: string, spans: seq<Span>) {
    Run(r, events) == Some(Grown(r, text, spans))
  }

  lemma GrownTwice(r: Record, text: string, spans: seq<Span>, text': string, spans': seq<Span>)
    ensures Grown(Grown(r, text, spans), text', spans') == Grown(r, text + text', spans + spans')
  {
    assert (r.text + text) + text' == r.text + (text + text');
    assert (r.spans + spans) + spans' == r.spans + (spans + spans');
  }

  lemma SpansJoin(a: seq<Span>, b: seq<Span>, c: seq<Span>)
    ensures (a + b) + c == a + (b + c) && b + [] == b
  {
  }

  /** The range an element leaves behind when it closes. */
  function OwnSpans(tag: Tag, start: nat, end: nat): seq<Span> {
    if tag == P then [] else [Span(start, end, Style(tag))]
  }

  /** Closing the element that `r` had on top of its stack. */
  lemma CloseGrown(r: Record, tag: Tag, text: string, spans: seq<Span>)
    requires !tag.Unknown? && tag != Br
    ensures Closed(Grown(r.(stack := r.stack + [Open(tag, |r.text|)]), text, spans), tag)
         == Some(Grown(r, text, spans + OwnSpans(tag, |r.text|, |r.text| + |text|)))
  {
    var o, own := Open(tag, |r.text|), OwnSpans(tag, |r.text|, |r.text| + |text|);
    var g := Grown(r.(stack := r.stack + [o]), text, spans);
    assert g.stack[|r.stack|] == o && g.stack[..|r.stack|] == r.stack && |g.text| == |r.text| + |text|;
    SpansJoin(r.spans, spans, own);
    assert Closed(g, tag) == Some(Record(g.text, r.stack, if tag == P then g.spans else g.spans + own));
  }

  lemma {:induction false} ReplayTree(r: Record, t: Inline, at: nat)
    requires WellFormed(t) && at == |r.text|
    ensures Yields(r, Events(t), TextOf(t), SpansOf(t, at))
    decreases t, 1
  {
    match t
    case Element(tag, children) =>
      ReplayForest(r.(stack := r.stack + [Open(tag, at)]), children, at);
      ReplayElement(r, tag, EventsAll(children), TextAll(children), SpansAll(children, at), at);
    case _ => ReplayLeaf(r, t, at);
  }

  lemma ReplayLeaf(r: Record, t: Inline, at: nat)
    requires !t.Element?
    ensures Yields(r, Events(t), TextOf(t), SpansOf(t, at))
  {
    RunOne(r, Events(t)[0]);
    SpansJoin(r.spans, r.spans, []);
  }

  /** An element around content that replays. */
  lemma ReplayElement(r: Record, tag: Tag, inner: seq<Event>, text: string, spans: seq<Span>, at: nat)
    requires !tag.Unknown? && tag != Br && at == |r.text|
    requires Yields(r.(stack := r.stack + [Open(tag, at)]), inner, text, spans)
    ensures Yields(r, [Start(tag, false)] + inner + [End(tag)], text, spans + OwnSpans(tag, at, at + |text|))
  {
    var entered := r.(stack := r.stack + [Open(tag, at)]);
    RunOne(r, Start(tag, false));
    RunConcat(r, [Start(tag, false)], inner);
    CloseGrown(r, tag, text, spans);
    RunOne(Grown(entered, text, spans), End(tag));
    RunConcat(r, [Start(tag, false)] + inner, [End(tag)]);
  }

  /** Replaying the callbacks of any well-formed forest yields exactly its text and its ranges. */
  lemma {:induction false} ReplayForest(r: Record, ts: seq<Inline>, at: nat)
    requires AllWellFormed(ts) && at == |r.text|
    ensures Yields(r, EventsAll(ts), TextAll(ts), SpansAll(ts, at))
    decreases ts, 0
  {
    if ts == [] {
      NothingYields(r);
    } else {
      var front, last := ts[..|ts| - 1], ts[|ts| - 1];
      var text, spans := TextAll(front), SpansAll(front, at);
      ReplayForest(r, front, at);
      ReplayTree(Grown(r, text, spans), last, at + |text|);
      ForestEnds(ts, at);
      RunBoth(r, EventsAll(front), text, spans, Events(last), TextOf(last), SpansOf(last, at + |text|),
              EventsAll(ts), TextAll(ts), SpansAll(ts, at));
    }
  }

  lemma NothingYields(r: Record)
    ensures Yields(r, [], "", [])
  {
    assert r.spans + [] == r.spans && r.text + "" == r.text;
  }

  lemma ForestEnds(ts: seq<Inline>, at: nat)
    requires ts != []
    ensures var front, last := ts[..|ts| - 1], ts[|ts| - 1];
      && EventsAll(ts) == EventsAll(front) + Events(last)
      && TextAll(ts) == TextAll(front) + TextOf(last)
      && SpansAll(ts, at) == SpansAll(front, at) + SpansOf(last, at + |TextAll(front)|)
  {
  }

  /** Two growths in a row. */
  lemma RunBoth(
    r: Record, a: seq<Event>, text: string, spans: seq<Span>, b: seq<Event>, text': string, spans': seq<Span>,
    both: seq<Event>, bothText: string, bothSpans: seq<Span>)
    requires Yields(r, a, text, spans) && Yields(Grown(r, text, spans), b, text', spans')
    requires both == a + b && bothText == text + text' && bothSpans == spans + spans'
    ensures Yields(r, both, bothText, bothSpans)
  {
    RunConcat(r, a, b);
    GrownTwice(r, text, spans, text', spans');
  }

  lemma RunOne(r: Record, e: Event)
    ensures Run(r, [e]) == Step(r, e)
  {
    assert [e][..0] == [];
    assert Run(r, []) == Some(r);
  }

  // ----- Every accepted document is a forest --------------------------------

  /** Callbacks of a document in progress: one forest below the stack and one above each open tag. */
  function Unfinished(frames: seq<seq<Inline>>, stack: seq<Open>): seq<Event>
    requires |frames| == |stack| + 1
    decreases |stack|
  {
    var n := |stack|;
    if n == 0 then EventsAll(frames[0])
    else Unfinished(frames[..n], stack[..n - 1]) + [Start(stack[n - 1].tag, false)] + EventsAll(frames[n])
  }

  predicate FramesOk(frames: seq<seq<Inline>>, stack: seq<Open>) {
    && |frames| == |stack| + 1
    && (forall i :: 0 <= i < |frames| ==> AllWellFormed(frames[i]))
    && (forall i :: 0 <= i < |stack| ==> !stack[i].tag.Unknown? && stack[i].tag != Br)
  }

  /** Puts one more tree on top. */
  function Pushed(frames: seq<seq<Inline>>, t: Inline): seq<seq<Inline>>
    requires frames != []
  {
    frames[..|frames| - 1] + [frames[|frames| - 1] + [t]]
  }

  lemma EventsAppend(ts: seq<Inline>, t: Inline)
    ensures EventsAll(ts + [t]) == EventsAll(ts) + Events(t)
  {
    assert (ts + [t])[..|ts|] == ts;
  }

  lemma UnfinishedPush(frames: seq<seq<Inline>>, stack: seq<Open>, t: Inline)
    requires FramesOk(frames, stack) && WellFormed(t)
    ensures FramesOk(Pushed(frames, t), stack)
    ensures Unfinished(Pushed(frames, t), stack) == Unfinished(frames, stack) + Events(t)
  {
    var n := |stack|;
    EventsAppend(frames[n], t);
    assert Pushed(frames, t)[..n] == frames[..n];
    forall i | 0 <= i < |Pushed(frames, t)|
      ensures AllWellFormed(Pushed(frames, t)[i])
    {
      if i == n {
        assert AllWellFormed(frames[n]);
      }
    }
  }

  lemma UnfinishedOpen(frames: seq<seq<Inline>>, stack: seq<Open>, o: Open)
    requires FramesOk(frames, stack) && !o.tag.Unknown? && o.tag != Br
    ensures FramesOk(frames + [[]], stack + [o])
    ensures Unfinished(frames + [[]], stack + [o]) == Unfinished(frames, stack) + [Start(o.tag, false)]
  {
    assert (frames + [[]])[..|frames|] == frames && (stack + [o])[..|stack|] == stack;
  }

  lemma UnfinishedClose(frames: seq<seq<Inline>>, stack: seq<Open>)
    requires FramesOk(frames, stack) && stack != []
    ensures var n := |stack|;
      var closed := Pushed(frames[..n], Element(stack[n - 1].tag, frames[n]));
      FramesOk(closed, stack[..n - 1])
      && Unfinished(closed, stack[..n - 1]) == Unfinished(frames, stack) + [End(stack[n - 1].tag)]
  {
    var n := |stack|;
    var t := Element(stack[n - 1].tag, frames[n]);
    assert WellFormed(t) by {
      assert AllWellFormed(frames[n]);
    }
    UnfinishedPush(frames[..n], stack[..n - 1], t);
  }

  /** Reads a forest back from accepted callbacks, one frame per open element. */
  lemma {:induction false} Parse(events: seq<Event>) returns (frames: seq<seq<Inline>>)
    requires Run(BLANK, events).Some?
    ensures FramesOk(frames, Run(BLANK, events).value.stack)
    ensures Unfinished(frames, Run(BLANK, events).value.stack) == events
  {
    if events == [] {
      frames := [[]];
    } else {
      var n := |events| - 1;
      var before := Parse(events[..n]);
      var r := Run(BLANK, events[..n]).value;
      frames := ParseStep(before, r, events[n]);
      assert events == events[..n] + [events[n]];
    }
  }

  lemma ParsePush(before: seq<seq<Inline>>, r: Record, e: Event, t: Inline) returns (frames: seq<seq<Inline>>)
    requires FramesOk(before, r.stack) && Step(r, e).Some? && Step(r, e).value.stack == r.stack
    requires WellFormed(t) && Events(t) == [e]
    ensures FramesOk(frames, Step(r, e).value.stack)
    ensures Unfinished(frames, Step(r, e).value.stack) == Unfinished(before, r.stack) + [e]
  {
    UnfinishedPush(before, r.stack, t);
    frames := Pushed(before, t);
  }

  lemma ParseOpen(before: seq<seq<Inline>>, r: Record, tag: Tag) returns (frames: seq<seq<Inline>>)
    requires FramesOk(before, r.stack) && Opened(r, tag, false).Some? && tag != Br
    ensures FramesOk(frames, Opened(r, tag, false).value.stack)
    ensures Unfinished(frames, Opened(r, tag, false).value.stack) == Unfinished(before, r.stack) + [Start(tag, false)]
  {
    UnfinishedOpen(before, r.stack, Open(tag, |r.text|));
    frames := before + [[]];
  }

  lemma ParseClose(before: seq<seq<Inline>>, r: Record, tag: Tag) returns (frames: seq<seq<Inline>>)
    requires FramesOk(before, r.stack) && Closed(r, tag).Some?
    ensures FramesOk(frames, Closed(r, tag).value.stack)
    ensures Unfinished(frames, Closed(r, tag).value.stack) == Unfinished(before, r.stack) + [End(tag)]
  {
    UnfinishedClose(before, r.stack);
    frames := Pushed(before[..|r.stack|], Element(tag, before[|r.stack|]));
  }

  lemma ParseStep(before: seq<seq<Inline>>, r: Record, e: Event) returns (frames: seq<seq<Inline>>)
    requires FramesOk(before, r.stack) && Step(r, e).Some?
    ensures FramesOk(frames, Step(r, e).value.stack)
    ensures Unfinished(frames, Step(r, e).value.stack) == Unfinished(before, r.stack) + [e]
  {
    match e
    case Data(s) => frames := ParsePush(before, r, e, Text(s));
    case StartEnd(_, _) => frames := ParsePush(before, r, e, Break(true));
    case Start(tag, _) =>
      if tag == Br {
        frames := ParsePush(before, r, e, Break(false));
      } else {
        frames := ParseOpen(before, r, tag);
      }
    case End(tag) => frames := ParseClose(before, r, tag);
  }

  /**
   * The witness accepts a document and ends with nothing open exactly when the
   * document is the callbacks of a well-formed inline forest.
   */
  lemma AcceptedExactly(events: seq<Event>)
    ensures Run(BLANK, events).Some? && Run(BLANK, events).value.stack == [] <==>
            exists ts :: AllWellFormed(ts) && EventsAll(ts) == events
  {
    if Run(BLANK, events).Some? && Run(BLANK, events).value.stack == [] {
      var frames := Parse(events);
      assert AllWellFormed(frames[0]) && EventsAll(frames[0]) == events;
    }
    if ts :| AllWellFormed(ts) && EventsAll(ts) == events {
      ReplayForest(BLANK, ts, 0);
    }
  }
}
