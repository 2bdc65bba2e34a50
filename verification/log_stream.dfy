/** The log channel of app.py: the consumer behind `/stream-logs`, which
    takes messages off the log queue and frames them as a server-sent event
    stream, and the browser side that reads that stream back, following
    the event-stream interpretation of section 9.2.6 of the WHATWG HTML
    Living Standard. */
module LogStream {
  import opened Text
  import opened Json
  import opened Batch

  /* ---------------------------------------------------------------------- */
  /* The consumer                                                            */
  /* ---------------------------------------------------------------------- */

  /** The messages the consumer takes from queue contents `q` that arrive
      before its wait times out: everything up to and including the first
      sentinel, or all of `q` when there is none (the next wait then times
      out). */
  function Taken(q: seq<string>): (r: seq<string>)
    ensures |r| <= |q| && r == q[..|r|]
    ensures EndOfStream in q ==> |r| >= 1 && r[|r| - 1] == EndOfStream && EndOfStream !in r[..|r| - 1]
    ensures EndOfStream !in q ==> r == q
    decreases |q|
  {
    if q == [] then []
    else if q[0] == EndOfStream then [q[0]]
    else [q[0]] + Taken(q[1..])
  }

  /** A sentinel already waiting in the queue ends the stream there, before
      anything queued after it. */
  lemma {:induction false} StaleSentinelEndsStream(waiting: seq<string>, later: seq<string>)
    requires EndOfStream in waiting
    ensures Taken(waiting + later) == Taken(waiting)
    decreases |waiting|
  {
    if waiting[0] != EndOfStream {
      assert (waiting + later)[1..] == waiting[1..] + later;
      StaleSentinelEndsStream(waiting[1..], later);
    }
  }

  lemma {:induction false} TakenUpToSentinel(p: seq<string>)
    requires EndOfStream !in p
    ensures Taken(p + [EndOfStream]) == p + [EndOfStream]
    decreases |p|
  {
    if p != [] {
      assert (p + [EndOfStream])[1..] == p[1..] + [EndOfStream];
      TakenUpToSentinel(p[1..]);
    }
  }

  /** Read from an empty queue, a run whose children never print the
      sentinel reaches the consumer whole: every message, the sentinel last. */
  lemma WholeRunReachesConsumer(items: Json, spawn: nat -> ChildRun)
    requires forall j :: 0 <= j ==> Quiet(spawn(j))
    ensures Taken(Messages(Run(items, spawn))) == Messages(Run(items, spawn))
  {
    RunMessages(items, spawn);
    BodyHasNoSentinel(items, spawn);
    TakenUpToSentinel(Messages(Body(items, spawn)));
  }

  /** The frame the consumer yields for a message. */
  function FrameAsWritten(m: string): string {
    "data: " + m + "\n\n"
  }

  function FramesAsWritten(ms: seq<string>): string
    decreases |ms|
  {
    if ms == [] then "" else FrameAsWritten(ms[0]) + FramesAsWritten(ms[1..])
  }

  /** The body of the `/stream-logs` response for queue contents `q`. */
  function ResponseAsWritten(q: seq<string>): string {
    FramesAsWritten(Taken(q))
  }

  /* ---------------------------------------------------------------------- */
  /* Reading the stream back                                                 */
  /* ---------------------------------------------------------------------- */

  /** A dispatched event: its type and its data. */
  datatype Event = Event(kind: string, data: string)

  /** The data buffer, the event type buffer, and the events dispatched. */
  datatype Parser = Parser(data: string, kind: string, events: seq<Event>)

  /** Splits a stream into lines at CRLF, LF or CR. The last piece is what
      follows the last line end. */
  function StreamLines(s: string): (r: seq<string>)
    ensures |r| >= 1
    decreases |s|
  {
    if s == [] then [""]
    else if s[0] == '\n' then [""] + StreamLines(s[1..])
    else if s[0] == '\r' then [""] + StreamLines(if |s| > 1 && s[1] == '\n' then s[2..] else s[1..])
    else ConsFirst(s[0], StreamLines(s[1..]))
  }

  /** Without carriage returns, the stream's lines are the plain split. */
  lemma {:induction false} StreamLinesWithoutCR(s: string)
    requires '\r' !in s
    ensures StreamLines(s) == Lines(s)
    decreases |s|
  {
    if s != [] {
      StreamLinesWithoutCR(s[1..]);
    }
  }

  /** The complete lines of a stream; a trailing unterminated piece is
      discarded at the end of the stream. */
  function CompleteLines(s: string): seq<string> {
    var ls := StreamLines(s);
    ls[..|ls| - 1]
  }

  /** The field name of a line: what precedes its first ':', or the whole
      line when it has none. */
  function FieldName(line: string): string {
    line[..IndexOf(line, ':')]
  }

  /** The field value of a line: what follows its first ':', less one
      leading space; empty when the line has no ':'. */
  function FieldValue(line: string): string {
    var i := IndexOf(line, ':');
    if i == |line| then ""
    else
      var v := line[i + 1..];
      if v != [] && v[0] == ' ' then v[1..] else v
  }

  /** Dispatching at a blank line: nothing when the data buffer is empty,
      otherwise an event whose data is the buffer less its final line feed
      and whose type is "message" unless an `event` field set one. */
  function Dispatch(p: Parser): (r: Parser)
    ensures r.data == "" && r.kind == ""
    ensures |r.events| == |p.events| + (if p.data == "" then 0 else 1)
    ensures r.events[..|p.events|] == p.events
  {
    if p.data == "" then Parser("", "", p.events)
    else
      var d := if p.data[|p.data| - 1] == '\n' then p.data[..|p.data| - 1] else p.data;
      var e := Event(if p.kind == "" then "message" else p.kind, d);
      assert (p.events + [e])[..|p.events|] == p.events;
      Parser("", "", p.events + [e])
  }

  /** One line: a blank line dispatches, a line starting with ':' is a
      comment, a `data` field appends its value and a line feed to the data
      buffer, an `event` field sets the type; `id`, `retry` and unknown
      fields leave data, type and events alone. */
  function FeedLine(p: Parser, line: string): Parser {
    if line == "" then Dispatch(p)
    else if line[0] == ':' then p
    else if FieldName(line) == "event" then p.(kind := FieldValue(line))
    else if FieldName(line) == "data" then p.(data := p.data + FieldValue(line) + "\n")
    else p
  }

  function Feed(p: Parser, lines: seq<string>): Parser
    decreases |lines|
  {
    if lines == [] then p else Feed(FeedLine(p, lines[0]), lines[1..])
  }

  /** The events a browser dispatches for a whole stream. */
  function Interpret(stream: string): seq<Event> {
    Feed(Parser("", "", []), CompleteLines(stream)).events
  }

  /** A plain message event. */
  function Message(m: string): Event {
    Event("message", m)
  }

  /** One message event per message, in order. */
  function MessageEvents(ms: seq<string>): (r: seq<Event>)
    ensures |r| == |ms| && forall k :: 0 <= k < |ms| ==> r[k] == Message(ms[k])
    decreases |ms|
  {
    if ms == [] then [] else [Message(ms[0])] + MessageEvents(ms[1..])
  }

  lemma {:induction false} FeedAppend(p: Parser, a: seq<string>, b: seq<string>)
    ensures Feed(p, a + b) == Feed(Feed(p, a), b)
    decreases |a|
  {
    if a != [] {
      assert (a + b)[1..] == a[1..] + b;
      FeedAppend(FeedLine(p, a[0]), a[1..], b);
    } else {
      assert a + b == b;
    }
  }

  /* ---------------------------------------------------------------------- */
  /* Framing a message line by line                                          */
  /* ---------------------------------------------------------------------- */

  /** One `data:` line per line of the message. */
  function DataLines(ls: seq<string>): (r: seq<string>)
    ensures |r| == |ls|
    decreases |ls|
  {
    if ls == [] then [] else ["data: " + ls[0]] + DataLines(ls[1..])
  }

  /** The framing that carries a message with line breaks intact: one
      `data:` line per line, then a blank line. */
  function Frame(m: string): string {
    Join(DataLines(Lines(m)), "\n") + "\n\n"
  }

  function Frames(ms: seq<string>): string
    decreases |ms|
  {
    if ms == [] then "" else Frame(ms[0]) + Frames(ms[1..])
  }

  /** What the data lines of `ls` put in the data buffer. */
  function DataOf(ls: seq<string>): string
    decreases |ls|
  {
    if ls == [] then "" else ls[0] + "\n" + DataOf(ls[1..])
  }

  lemma {:induction false} DataOfJoin(ls: seq<string>)
    requires |ls| >= 1
    ensures DataOf(ls) == Join(ls, "\n") + "\n"
    decreases |ls|
  {
    if |ls| > 1 {
      DataOfJoin(ls[1..]);
    }
  }

  lemma DataLineFields(l: string)
    ensures FieldName("data: " + l) == "data" && FieldValue("data: " + l) == l
  {
    var line := "data: " + l;
    IndexOfIs(line, ':', 4);
    assert line[..4] == "data";
    assert line[5..] == " " + l;
  }

  lemma FeedDataLine(p: Parser, l: string)
    ensures FeedLine(p, "data: " + l) == p.(data := p.data + l + "\n")
  {
    DataLineFields(l);
    assert ("data: " + l)[0] == 'd';
  }

  lemma FeedCons(p: Parser, line: string, rest: seq<string>)
    ensures Feed(p, [line] + rest) == Feed(FeedLine(p, line), rest)
  {
    assert ([line] + rest)[1..] == rest;
  }

  lemma {:induction false} FeedDataLines(p: Parser, ls: seq<string>)
    ensures Feed(p, DataLines(ls)) == p.(data := p.data + DataOf(ls))
    decreases |ls|
  {
    if ls == [] {
      assert p.data + DataOf(ls) == p.data;
    } else {
      var p' := p.(data := p.data + ls[0] + "\n");
      FeedDataLine(p, ls[0]);
      FeedCons(p, "data: " + ls[0], DataLines(ls[1..]));
      FeedDataLines(p', ls[1..]);
      assert p.data + ls[0] + "\n" + DataOf(ls[1..]) == p.data + (ls[0] + "\n" + DataOf(ls[1..]));
    }
  }

  lemma {:induction false} DataLinesHaveNoBreak(ls: seq<string>)
    requires forall k :: 0 <= k < |ls| ==> NoBreak(ls[k])
    ensures forall k :: 0 <= k < |ls| ==> NoBreak(DataLines(ls)[k])
    decreases |ls|
  {
    if ls != [] {
      DataLinesHaveNoBreak(ls[1..]);
      assert DataLines(ls)[1..] == DataLines(ls[1..]);
      assert DataLines(ls)[0] == "data: " + ls[0];
    }
  }

  lemma {:induction false} LineBreaksOfTwo()
    ensures Lines("\n") == ["", ""]
  {
    assert "\n"[1..] == "";
  }

  /** A frame's lines: its data lines and a blank line, then the empty piece
      after the final line end. */
  lemma FrameLines(m: string)
    ensures Lines(Frame(m)) == DataLines(Lines(m)) + ["", ""]
  {
    var d := DataLines(Lines(m));
    LinesHaveNoBreak(m);
    DataLinesHaveNoBreak(Lines(m));
    LinesOfJoin(d);
    assert Frame(m) == Join(d, "\n") + ['\n'] + "\n";
    LinesAround(Join(d, "\n"), '\n', "\n");
    LineBreaksOfTwo();
  }

  lemma {:induction false} NoCRInData(ls: seq<string>)
    requires forall k :: 0 <= k < |ls| ==> '\r' !in ls[k]
    ensures forall k :: 0 <= k < |ls| ==> '\r' !in DataLines(ls)[k]
    decreases |ls|
  {
    if ls != [] {
      NoCRInData(ls[1..]);
      assert DataLines(ls)[1..] == DataLines(ls[1..]);
      assert DataLines(ls)[0] == "data: " + ls[0];
    }
  }

  lemma FrameHasNoCR(m: string)
    requires '\r' !in m
    ensures '\r' !in Frame(m)
  {
    LinesHaveNoBreak(m);
    NoCRInData(Lines(m));
    JoinAvoids(DataLines(Lines(m)), "\n", '\r');
  }

  lemma FrameStreamLines(m: string)
    requires '\r' !in m
    ensures StreamLines(Frame(m)) == DataLines(Lines(m)) + ["", ""]
  {
    FrameHasNoCR(m);
    StreamLinesWithoutCR(Frame(m));
    FrameLines(m);
  }

  lemma FrameCompleteLines(m: string)
    requires '\r' !in m
    ensures CompleteLines(Frame(m)) == DataLines(Lines(m)) + [""]
  {
    FrameStreamLines(m);
    var d := DataLines(Lines(m));
    assert (d + ["", ""])[..|d| + 1] == d + [""];
  }

  /** Dispatching a data buffer that holds the lines of `m`, each ended by a
      line feed, gives back `m`. */
  lemma DispatchLines(p: Parser, m: string)
    requires '\r' !in m && p.kind == ""
    requires p.data == DataOf(Lines(m))
    ensures Dispatch(p) == Parser("", "", p.events + [Message(m)])
  {
    DataOfJoin(Lines(m));
    JoinOfLines(m);
    assert p.data == m + "\n";
    assert p.data[..|p.data| - 1] == m;
  }

  /** A parser between events reads a frame as exactly that message. */
  lemma FeedFrame(p: Parser, m: string)
    requires '\r' !in m && p.data == "" && p.kind == ""
    ensures Feed(p, CompleteLines(Frame(m))) == Parser("", "", p.events + [Message(m)])
  {
    var d := DataLines(Lines(m));
    FrameCompleteLines(m);
    FeedAppend(p, d, [""]);
    FeedDataLines(p, Lines(m));
    var q := p.(data := p.data + DataOf(Lines(m)));
    assert q.data == DataOf(Lines(m));
    DispatchLines(q, m);
    assert Feed(q, [""]) == Feed(Dispatch(q), []);
  }

  /** The framing loses nothing: a frame reads back as its message. */
  lemma InterpretFrame(m: string)
    requires '\r' !in m
    ensures Interpret(Frame(m)) == [Message(m)]
  {
    FeedFrame(Parser("", "", []), m);
  }

  /** Lines of a stream that ends a line, then more stream. */
  lemma CompleteLinesAppend(x: string, t: string)
    requires '\r' !in x && '\r' !in t
    ensures CompleteLines(x + "\n" + t) == Lines(x) + CompleteLines(t)
  {
    StreamLinesWithoutCR(t);
    assert '\r' !in x + "\n" + t by {
      assert forall k :: 0 <= k < |x + "\n" + t| ==> (x + "\n" + t)[k] != '\r' by {
        forall k | 0 <= k < |x + "\n" + t|
          ensures (x + "\n" + t)[k] != '\r'
        {
          if k < |x| {
            assert (x + "\n" + t)[k] == x[k];
          } else if k > |x| {
            assert (x + "\n" + t)[k] == t[k - |x| - 1];
          }
        }
      }
    }
    StreamLinesWithoutCR(x + "\n" + t);
    assert x + "\n" + t == x + ['\n'] + t;
    LinesAround(x, '\n', t);
    var lt := Lines(t);
    assert (Lines(x) + lt)[..|Lines(x)| + |lt| - 1] == Lines(x) + lt[..|lt| - 1];
  }

  lemma FramesHaveNoCR(ms: seq<string>)
    requires forall k :: 0 <= k < |ms| ==> '\r' !in ms[k]
    ensures '\r' !in Frames(ms)
    decreases |ms|
  {
    if ms != [] {
      FrameHasNoCR(ms[0]);
      FramesHaveNoCR(ms[1..]);
    }
  }

  /** After a line end the lines start afresh. */
  lemma CompleteLinesOfEnded(f: string, t: string)
    requires f != [] && f[|f| - 1] == '\n'
    requires '\r' !in f && '\r' !in t
    ensures CompleteLines(f + t) == CompleteLines(f) + CompleteLines(t)
  {
    var x := f[..|f| - 1];
    assert f == x + "\n";
    assert '\r' !in x by {
      forall j | 0 <= j < |x|
        ensures x[j] != '\r'
      {
        assert x[j] == f[j];
      }
    }
    CompleteLinesAppend(x, t);
    CompleteLinesAppend(x, "");
    assert CompleteLines("") == [];
    assert x + "\n" + "" == f;
  }

  lemma FrameEnds(m: string)
    ensures Frame(m) != [] && Frame(m)[|Frame(m)| - 1] == '\n'
  {
  }

  /** The complete lines of a run of frames are those of its first frame,
      then those of the rest. */
  lemma FramesLines(ms: seq<string>)
    requires ms != []
    requires forall k :: 0 <= k < |ms| ==> '\r' !in ms[k]
    ensures CompleteLines(Frames(ms)) == CompleteLines(Frame(ms[0])) + CompleteLines(Frames(ms[1..]))
  {
    FrameEnds(ms[0]);
    FrameHasNoCR(ms[0]);
    FramesHaveNoCR(ms[1..]);
    CompleteLinesOfEnded(Frame(ms[0]), Frames(ms[1..]));
  }

  lemma FeedFirstFrame(p: Parser, ms: seq<string>)
    requires ms != []
    requires forall k :: 0 <= k < |ms| ==> '\r' !in ms[k]
    requires p.data == "" && p.kind == ""
    ensures Feed(p, CompleteLines(Frames(ms)))
         == Feed(Parser("", "", p.events + [Message(ms[0])]), CompleteLines(Frames(ms[1..])))
  {
    FramesLines(ms);
    FeedAppend(p, CompleteLines(Frame(ms[0])), CompleteLines(Frames(ms[1..])));
    FeedFrame(p, ms[0]);
  }

  lemma {:induction false} FeedFrames(p: Parser, ms: seq<string>)
    requires forall k :: 0 <= k < |ms| ==> '\r' !in ms[k]
    requires p.data == "" && p.kind == ""
    ensures Feed(p, CompleteLines(Frames(ms))) == Parser("", "", p.events + MessageEvents(ms))
    decreases |ms|
  {
    if ms == [] {
      assert CompleteLines("") == [];
    } else {
      FeedFirstFrame(p, ms);
      FeedFrames(Parser("", "", p.events + [Message(ms[0])]), ms[1..]);
      assert p.events + [Message(ms[0])] + MessageEvents(ms[1..]) == p.events + MessageEvents(ms);
    }
  }

  /** A stream of frames reads back as its messages, in order. */
  lemma InterpretFrames(ms: seq<string>)
    requires forall k :: 0 <= k < |ms| ==> '\r' !in ms[k]
    ensures Interpret(Frames(ms)) == MessageEvents(ms)
  {
    FeedFrames(Parser("", "", []), ms);
  }

  /* ---------------------------------------------------------------------- */
  /* The framing as written                                                  */
  /* ---------------------------------------------------------------------- */

  /** For a message without line breaks the framing as written is the
      line-by-line framing. */
  lemma OneLineFrame(m: string)
    requires NoBreak(m)
    ensures FrameAsWritten(m) == Frame(m)
  {
    LinesOfOne(m);
    assert DataLines([m]) == ["data: " + m];
  }

  /** A line that starts with '-' names a field other than `data` and
      `event`. */
  lemma DashLineIsIgnored(p: Parser, rest: string)
    requires rest != [] && rest[0] == '-'
    ensures FeedLine(p, rest) == p
  {
    var name := FieldName(rest);
    assert name == [] || name[0] == '-';
  }

  lemma LeadingBreakHasNoCR(rest: string)
    requires NoBreak(rest)
    ensures '\r' !in FrameAsWritten("\n" + rest)
  {
    var s := FrameAsWritten("\n" + rest);
    forall k | 0 <= k < |s|
      ensures s[k] != '\r'
    {
      if 7 <= k < 7 + |rest| {
        assert s[k] == rest[k - 7];
      }
    }
  }

  /** The lines after the leading break: the rest, the blank line, and the
      empty piece after the final line end. */
  lemma TrailingLines(rest: string)
    requires NoBreak(rest)
    ensures Lines(rest + ['\n'] + "\n") == [rest, "", ""]
  {
    LineThenRest(rest, "\n");
    LineBreaksOfTwo();
  }

  lemma LeadingBreakSplit(rest: string)
    requires NoBreak(rest)
    ensures Lines(FrameAsWritten("\n" + rest)) == ["data: ", rest, "", ""]
  {
    var t := rest + ['\n'] + "\n";
    assert FrameAsWritten("\n" + rest) == "data: " + ['\n'] + t;
    LineThenRest("data: ", t);
    TrailingLines(rest);
  }

  lemma LeadingBreakLines(rest: string)
    requires NoBreak(rest)
    ensures CompleteLines(FrameAsWritten("\n" + rest)) == ["data: ", rest, ""]
  {
    var s := FrameAsWritten("\n" + rest);
    LeadingBreakHasNoCR(rest);
    StreamLinesWithoutCR(s);
    LeadingBreakSplit(rest);
  }

  /** An empty `data:` line puts a lone line feed in the data buffer. */
  lemma FeedEmptyDataLine(p: Parser, more: seq<string>)
    ensures Feed(p, ["data: "] + more) == Feed(p.(data := p.data + "\n"), more)
  {
    FeedDataLine(p, "");
    assert "data: " + "" == "data: ";
    assert p.data + "" + "\n" == p.data + "\n";
    FeedCons(p, "data: ", more);
  }

  lemma FeedDashLine(p: Parser, rest: string, more: seq<string>)
    requires rest != [] && rest[0] == '-'
    ensures Feed(p, [rest] + more) == Feed(p, more)
  {
    DashLineIsIgnored(p, rest);
    FeedCons(p, rest, more);
  }

  lemma FeedBlankLine(p: Parser)
    ensures Feed(p, [""]) == Dispatch(p)
  {
    FeedCons(p, "", []);
    assert [""] + [] == [""];
  }

  lemma LeadingBreakEvents(rest: string)
    requires rest != [] && rest[0] == '-'
    ensures Feed(Parser("", "", []), ["data: ", rest, ""]).events == [Message("")]
  {
    var p1 := Parser("\n", "", []);
    assert ["data: ", rest, ""] == ["data: "] + [rest, ""];
    FeedEmptyDataLine(Parser("", "", []), [rest, ""]);
    assert [rest, ""] == [rest] + [""];
    FeedDashLine(p1, rest, [""]);
    FeedBlankLine(p1);
  }

  /** A message whose first line is empty: the `data:` line carries only
      that empty line, and the next line is read as a field of its own. */
  lemma LeadingBreakLosesText(rest: string)
    requires rest != [] && rest[0] == '-' && NoBreak(rest)
    ensures Interpret(FrameAsWritten("\n" + rest)) == [Message("")]
  {
    LeadingBreakLines(rest);
    LeadingBreakEvents(rest);
  }

  lemma NoBreakConcat(a: string, b: string)
    requires NoBreak(a) && NoBreak(b)
    ensures NoBreak(a + b)
  {
    forall j | 0 <= j < |a + b|
      ensures !IsLineBreak((a + b)[j])
    {
      if j >= |a| {
        assert (a + b)[j] == b[j - |a|];
      }
    }
  }

  lemma NumberHasNoBreak(n: nat)
    ensures NoBreak(NatToString(n))
  {
    var r := NatToString(n);
    assert forall j :: 0 <= j < |r| ==> IsDigit(r[j]);
  }

  /** The header line has no line break when the item's name has none. */
  lemma HeaderLineHasNoBreak(k: nat, n: nat, name: string)
    requires NoBreak(name)
    ensures NoBreak(HeaderLine(k, n, name))
  {
    var a := NatToString(k + 1);
    var b := NatToString(n);
    var lead := "--- Processing item ";
    NumberHasNoBreak(k + 1);
    NumberHasNoBreak(n);
    NoBreakConcat(lead, a);
    NoBreakConcat(lead + a, " of ");
    NoBreakConcat(lead + a + " of ", b);
    NoBreakConcat(lead + a + " of " + b, ": ");
    NoBreakConcat(lead + a + " of " + b + ": ", name);
    NoBreakConcat(lead + a + " of " + b + ": " + name, " ---");
  }

  lemma HeaderLineStartsWithDash(k: nat, n: nat, name: string)
    ensures HeaderLine(k, n, name) != [] && HeaderLine(k, n, name)[0] == '-'
  {
    PrefixStartsWith("--- Processing item ", NatToString(k + 1) + " of " + NatToString(n) + ": " + name + " ---");
    assert HeaderLine(k, n, name) == "--- Processing item " + (NatToString(k + 1) + " of " + NatToString(n) + ": " + name + " ---");
  }

  /** The browser receives every item header as an empty message: the
      header's text is dropped. Framed line by line it arrives whole. */
  lemma HeaderTextIsLost(k: nat, n: nat, name: string)
    requires NoBreak(name)
    ensures Interpret(FrameAsWritten(Header(k, n, name))) == [Message("")]
    ensures Header(k, n, name) != ""
    ensures Interpret(Frame(Header(k, n, name))) == [Message(Header(k, n, name))]
  {
    var line := HeaderLine(k, n, name);
    HeaderLineHasNoBreak(k, n, name);
    HeaderLineStartsWithDash(k, n, name);
    LeadingBreakLosesText(line);
    HeaderHasNoCR(k, n, name);
    InterpretFrame(Header(k, n, name));
  }

  lemma HeaderHasNoCR(k: nat, n: nat, name: string)
    requires NoBreak(name)
    ensures '\r' !in Header(k, n, name)
  {
    var line := HeaderLine(k, n, name);
    HeaderLineHasNoBreak(k, n, name);
    assert NoBreak(line);
    assert '\r' !in line;
  }

  /** The response body with line-by-line framing. */
  function Response(q: seq<string>): string {
    Frames(Taken(q))
  }

  /** The browser reads back exactly the messages the consumer took, in
      queue order. */
  lemma ResponseDeliversTaken(q: seq<string>)
    requires forall k :: 0 <= k < |q| ==> '\r' !in q[k]
    ensures Interpret(Response(q)) == MessageEvents(Taken(q))
  {
    var t := Taken(q);
    assert forall k :: 0 <= k < |t| ==> t[k] == q[k];
    InterpretFrames(t);
  }

  /** On messages without line breaks both framings produce the same
      bytes. */
  lemma {:induction false} FramingsAgreeOnOneLiners(ms: seq<string>)
    requires forall k :: 0 <= k < |ms| ==> NoBreak(ms[k])
    ensures FramesAsWritten(ms) == Frames(ms)
    decreases |ms|
  {
    if ms != [] {
      OneLineFrame(ms[0]);
      FramingsAgreeOnOneLiners(ms[1..]);
    }
  }
}
