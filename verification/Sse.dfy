/** Server-sent events: the frames written by internal/server/sse.go and api_events.go,
    the event-stream parser of the WHATWG HTML Living Standard (sections 9.2.5 and 9.2.6)
    that a browser runs on them, and the proof that the two undo each other. */
module Sse {
  import opened Text

  // ---- the writer ------------------------------------------------------------------

  /** What a handler puts on the wire in one write. The card and the JSON text are opaque. */
  datatype Frame =
    | Card(host: string, html: string)
    | Json(kind: string, text: string)
    | Heartbeat

  function PrefixChar(c: char): string
  {
    if c == '\n' then "\ndata: " else [c]
  }

  /** `strings.ReplaceAll(s, "\n", "\ndata: ")`. */
  function PrefixLines(s: string): string
  {
    if s == [] then []
    else PrefixChar(s[0]) + PrefixLines(s[1..])
  }

  function Write(f: Frame): string
  {
    match f
    case Card(host, html) =>
      "event: host-" + host + "\ndata: " + PrefixLines(TrimNewlines(html)) + "\n\n"
    case Json(kind, text) => "event: " + kind + "\ndata: " + text + "\n\n"
    case Heartbeat => ": heartbeat\n\n"
  }

  function WriteAll(fs: seq<Frame>): string
  {
    if fs == [] then [] else Write(fs[0]) + WriteAll(fs[1..])
  }

  // ---- the standard's parser -------------------------------------------------------

  datatype Message = Message(name: string, data: string, lastId: string)

  /** `line` is the unfinished line, `afterCR` says that a LF would complete a CRLF. */
  datatype Parser = Parser(line: string, afterCR: bool, eventType: string, data: string,
                           lastId: string, messages: seq<Message>)

  const START := Parser("", false, "", "", "", [])

  function Dispatch(p: Parser): Parser
  {
    if p.data == "" then p.(eventType := "")
    else
      var data := if p.data[|p.data| - 1] == '\n' then p.data[..|p.data| - 1] else p.data;
      var name := if p.eventType == "" then "message" else p.eventType;
      p.(eventType := "", data := "", messages := p.messages + [Message(name, data, p.lastId)])
  }

  function ProcessField(p: Parser, field: string, value: string): Parser
  {
    if field == "event" then p.(eventType := value)
    else if field == "data" then p.(data := p.data + value + "\n")
    else if field == "id" then (if 0 as char in value then p else p.(lastId := value))
    else p // "retry" changes the reconnection time only; other fields are ignored
  }

  function ProcessLine(p: Parser, line: string): Parser
  {
    if line == "" then Dispatch(p)
    else if line[0] == ':' then p
    else
      match Cut(line, ':')
      case None => ProcessField(p, line, "")
      case Some((field, value)) =>
        ProcessField(p, field, if value != "" && value[0] == ' ' then value[1..] else value)
  }

  function Feed(p: Parser, c: char): Parser
  {
    if c == '\n' && p.afterCR then p.(afterCR := false)
    else if c == '\n' || c == '\r' then
      ProcessLine(p.(line := "", afterCR := c == '\r'), p.line)
    else p.(line := p.line + [c], afterCR := false)
  }

  function FeedAll(p: Parser, s: string): Parser
    decreases |s|
  {
    if s == [] then p else FeedAll(Feed(p, s[0]), s[1..])
  }

  function Parse(s: string): seq<Message>
  {
    FeedAll(START, s).messages
  }

  // ---- what the writer means -------------------------------------------------------

  /** One line of text: no character that ends a line of an event stream. */
  predicate OneLine(s: string) { '\n' !in s && '\r' !in s }

  /** Frames the stream format can carry. */
  predicate Carriable(f: Frame)
  {
    match f
    case Card(host, html) => OneLine(host) && '\r' !in TrimNewlines(html)
    case Json(kind, text) => kind != "" && OneLine(kind) && OneLine(text)
    case Heartbeat => true
  }

  /** The event a frame is meant to deliver; a heartbeat delivers none. */
  function Meaning(f: Frame): seq<Message>
  {
    match f
    case Card(host, html) => [Message("host-" + host, TrimNewlines(html), "")]
    case Json(kind, text) => [Message(kind, text, "")]
    case Heartbeat => []
  }

  function MeaningAll(fs: seq<Frame>): seq<Message>
  {
    if fs == [] then [] else Meaning(fs[0]) + MeaningAll(fs[1..])
  }

  // ---- proofs ----------------------------------------------------------------------

  /** The parser does not see how the stream is cut into reads. */
  lemma {:induction false} FeedConcat(p: Parser, a: string, b: string)
    ensures FeedAll(p, a + b) == FeedAll(FeedAll(p, a), b)
    decreases |a|
  {
    if a == [] {
      assert a + b == b;
    } else {
      FeedConcat(Feed(p, a[0]), a[1..], b);
      assert (a + b)[1..] == a[1..] + b;
    }
  }

  predicate AtLineStart(p: Parser) { p.line == "" && !p.afterCR }

  lemma {:induction false} FeedText(p: Parser, s: string)
    requires OneLine(s) && !p.afterCR
    ensures FeedAll(p, s) == p.(line := p.line + s)
    decreases |s|
  {
    if s == [] {
      assert p.line + s == p.line;
    } else {
      var q := Feed(p, s[0]);
      assert s[1..] <= s[1..] && OneLine(s[1..]);
      FeedText(q, s[1..]);
      assert p.line + s == q.line + s[1..];
    }
  }

  /** A complete line reaches ProcessLine. */
  lemma FeedLine(p: Parser, s: string)
    requires AtLineStart(p) && OneLine(s)
    ensures FeedAll(p, s + "\n") == ProcessLine(p, s)
  {
    FeedConcat(p, s, "\n");
    FeedText(p, s);
    var q := p.(line := p.line + s);
    assert q.line == s;
    assert FeedAll(q, "\n") == FeedAll(Feed(q, '\n'), []);
    assert q.(line := "", afterCR := false) == p;
  }

  /** The line "field: value". */
  function FieldText(field: string, value: string): string
  {
    field + ": " + value + "\n"
  }

  /** The data lines that carry a payload. */
  function DataText(payload: string): string
  {
    FieldText("data", PrefixLines(payload))
  }

  lemma FeedField(p: Parser, field: string, value: string)
    requires AtLineStart(p) && OneLine(value) && OneLine(field) && ':' !in field && field != ""
    ensures FeedAll(p, FieldText(field, value)) == ProcessField(p, field, value)
  {
    var line := field + ": " + value;
    FeedLine(p, line);
    assert line == field + [':'] + (" " + value);
    CutAt(field, ':', " " + value);
    assert (" " + value)[1..] == value;
  }

  lemma {:induction false} PrefixConcat(a: string, b: string)
    ensures PrefixLines(a + b) == PrefixLines(a) + PrefixLines(b)
    decreases |a|
  {
    if a == [] {
      assert a + b == b;
    } else {
      PrefixConcat(a[1..], b);
      assert (a + b)[0] == a[0] && (a + b)[1..] == a[1..] + b;
      var x, y, z := PrefixChar(a[0]), PrefixLines(a[1..]), PrefixLines(b);
      assert PrefixLines(a + b) == x + (y + z);
      assert x + (y + z) == (x + y) + z;
    }
  }

  lemma {:induction false} PrefixOneLine(s: string)
    requires '\n' !in s
    ensures PrefixLines(s) == s
    decreases |s|
  {
    if s != [] {
      PrefixOneLine(s[1..]);
    }
  }

  lemma Regroup(d: string, first: string, n: string, r: string)
    ensures d + (first + (n + d) + r) + n == (d + first + n) + (d + r + n)
  {
  }

  lemma DataTextSplit(first: string, rest: string)
    requires '\n' !in first
    ensures DataText(first + ['\n'] + rest) == FieldText("data", first) + DataText(rest)
  {
    PrefixConcat(first + ['\n'], rest);
    PrefixConcat(first, ['\n']);
    PrefixOneLine(first);
    var n, d, r := "\n", "data" + ": ", PrefixLines(rest);
    assert PrefixLines(['\n']) == n + d;
    Regroup(d, first, n, r);
  }

  /** However many lines a payload has, blank ones included, they all land in the data
      buffer, in order and with nothing stripped. */
  lemma {:induction false} FeedPayload(p: Parser, payload: string)
    requires AtLineStart(p) && '\r' !in payload
    ensures FeedAll(p, DataText(payload)) == p.(data := p.data + payload + "\n")
    decreases |payload|
  {
    match Cut(payload, '\n')
    case None =>
      PrefixOneLine(payload);
      FeedField(p, "data", payload);
    case Some((first, rest)) =>
      assert payload == first + ['\n'] + rest;
      assert OneLine(first);
      DataTextSplit(first, rest);
      FeedField(p, "data", first);
      var q := p.(data := p.data + first + "\n");
      FeedConcat(p, FieldText("data", first), DataText(rest));
      FeedPayload(q, rest);
      assert p.data + payload + "\n" == q.data + rest + "\n";
  }

  /** Between events nothing is buffered. */
  predicate Idle(p: Parser)
  {
    AtLineStart(p) && p.eventType == "" && p.data == "" && p.lastId == ""
  }

  /** A blank line dispatches what is buffered and leaves the parser idle. */
  lemma FeedBlank(p: Parser, name: string, payload: string, blank: string)
    requires Idle(p) && name != "" && blank == "\n"
    ensures FeedAll(p.(eventType := name, data := payload + "\n"), blank)
         == p.(messages := p.messages + [Message(name, payload, "")])
  {
    var q := p.(eventType := name, data := payload + "\n");
    FeedLine(q, "");
    assert blank == "" + "\n";
    assert q.data[..|q.data| - 1] == payload;
  }

  /** An event line, a payload and a blank line dispatch exactly one event. */
  lemma FeedEvent(p: Parser, name: string, payload: string, blank: string)
    requires Idle(p) && OneLine(name) && name != "" && '\r' !in payload && blank == "\n"
    ensures FeedAll(p, FieldText("event", name) + (DataText(payload) + blank))
         == p.(messages := p.messages + [Message(name, payload, "")])
  {
    FeedConcat(p, FieldText("event", name), DataText(payload) + blank);
    FeedField(p, "event", name);
    var q := p.(eventType := name);
    FeedConcat(q, DataText(payload), blank);
    FeedPayload(q, payload);
    assert q.data + payload + "\n" == payload + "\n";
    FeedBlank(p, name, payload, blank);
  }

  /** The event format string, read as two field lines and a blank line. */
  lemma EventShape(name: string, data: string, blank: string)
    requires blank == "\n"
    ensures "event: " + name + "\ndata: " + data + "\n\n"
         == FieldText("event", name) + (FieldText("data", data) + blank)
  {
    assert "event: " + name + "\ndata: " + data + "\n\n"
        == ("event: " + name + "\n") + ("data: " + data + "\n\n");
    assert "data: " + data + "\n\n" == ("data: " + data + "\n") + "\n";
    assert "event: " + name + "\n" == "event" + ": " + name + "\n";
    assert "data: " + data + "\n" == "data" + ": " + data + "\n";
  }

  lemma FeedCard(p: Parser, f: Frame)
    requires Idle(p) && Carriable(f) && f.Card?
    ensures FeedAll(p, Write(f)) == p.(messages := p.messages + Meaning(f))
  {
    var name, payload := "host-" + f.host, TrimNewlines(f.html);
    FeedEvent(p, name, payload, "\n");
    EventShape("host-" + f.host, PrefixLines(payload), "\n");
    assert "event: " + ("host-" + f.host) == "event: host-" + f.host;
  }

  lemma FeedJson(p: Parser, f: Frame)
    requires Idle(p) && Carriable(f) && f.Json?
    ensures FeedAll(p, Write(f)) == p.(messages := p.messages + Meaning(f))
  {
    PrefixOneLine(f.text);
    FeedEvent(p, f.kind, f.text, "\n");
    EventShape(f.kind, f.text, "\n");
  }

  lemma FeedHeartbeat(p: Parser, comment: string, blank: string)
    requires Idle(p) && OneLine(comment) && comment != "" && comment[0] == ':' && blank == "\n"
    ensures FeedAll(p, (comment + "\n") + blank) == p
  {
    FeedConcat(p, comment + "\n", blank);
    FeedLine(p, comment);
    FeedLine(p, "");
    assert blank == "" + "\n";
  }

  lemma FeedFrame(p: Parser, f: Frame)
    requires Idle(p) && Carriable(f)
    ensures FeedAll(p, Write(f)) == p.(messages := p.messages + Meaning(f))
  {
    match f
    case Card(_, _) => FeedCard(p, f);
    case Json(_, _) => FeedJson(p, f);
    case Heartbeat =>
      FeedHeartbeat(p, ": heartbeat", "\n");
      assert Write(f) == (": heartbeat" + "\n") + "\n";
      assert p.messages + [] == p.messages;
  }

  lemma AppendAssociative<T>(a: seq<T>, b: seq<T>, c: seq<T>)
    ensures a + (b + c) == a + b + c
  {
  }

  lemma {:induction false} FeedFrames(p: Parser, fs: seq<Frame>)
    requires Idle(p) && forall i :: 0 <= i < |fs| ==> Carriable(fs[i])
    ensures FeedAll(p, WriteAll(fs)) == p.(messages := p.messages + MeaningAll(fs))
    decreases |fs|
  {
    if fs == [] {
      assert p.messages + [] == p.messages;
    } else {
      var first, rest := fs[0], fs[1..];
      var q := p.(messages := p.messages + Meaning(first));
      FeedConcat(p, Write(first), WriteAll(rest));
      FeedFrame(p, first);
      FeedFrames(q, rest);
      AppendAssociative(p.messages, Meaning(first), MeaningAll(rest));
    }
  }

  /** A delivered message without a CR, whose name is one non-empty line. */
  predicate CleanMessage(m: Message)
  {
    OneLine(m.name) && m.name != "" && '\r' !in m.data
  }

  predicate Clean(p: Parser)
  {
    && OneLine(p.line) && OneLine(p.eventType) && '\r' !in p.data
    && forall i :: 0 <= i < |p.messages| ==> CleanMessage(p.messages[i])
  }

  lemma ProcessFieldClean(p: Parser, field: string, value: string)
    requires Clean(p) && OneLine(value)
    ensures Clean(ProcessField(p, field, value))
  {
  }

  lemma ProcessLineClean(p: Parser, line: string)
    requires Clean(p) && OneLine(line)
    ensures Clean(ProcessLine(p, line))
  {
    if line != "" && line[0] != ':' {
      match Cut(line, ':')
      case None => ProcessFieldClean(p, line, "");
      case Some((field, value)) =>
        assert OneLine(value);
        ProcessFieldClean(p, field,
                          if value != "" && value[0] == ' ' then value[1..] else value);
    }
  }

  lemma {:induction false} FeedAllClean(p: Parser, s: string)
    requires Clean(p)
    ensures Clean(FeedAll(p, s))
    decreases |s|
  {
    if s != [] {
      ProcessLineClean(p.(line := "", afterCR := s[0] == '\r'), p.line);
      FeedAllClean(Feed(p, s[0]), s[1..]);
    }
  }

  lemma {:induction false} MeaningIn(fs: seq<Frame>, f: Frame)
    requires f in fs
    ensures forall m :: m in Meaning(f) ==> m in MeaningAll(fs)
    decreases |fs|
  {
    if f != fs[0] {
      MeaningIn(fs[1..], f);
    }
  }

  /** Round trip over whole streams, exactly: with one-line JSON texts, the browser
      receives the meaning of every frame, in order, if and only if no card contains a
      CR, no host name or kind contains a CR or LF, and no kind is empty. */
  lemma StreamRoundTrip(fs: seq<Frame>)
    requires forall i :: 0 <= i < |fs| && fs[i].Json? ==> OneLine(fs[i].text)
    ensures Parse(WriteAll(fs)) == MeaningAll(fs)
       <==> forall i :: 0 <= i < |fs| ==> Carriable(fs[i])
  {
    if i :| 0 <= i < |fs| && !Carriable(fs[i]) {
      var f := fs[i];
      FeedAllClean(START, WriteAll(fs));
      MeaningIn(fs, f);
      var m := Meaning(f)[0];
      if f.Card? {
        assert forall c :: c in f.host ==> c in m.name;
      }
      assert !CleanMessage(m);
      assert m in MeaningAll(fs) && m !in Parse(WriteAll(fs));
    } else {
      FeedFrames(START, fs);
    }
  }

  lemma {:induction false} MessagesGrow(p: Parser, s: string)
    ensures p.messages <= FeedAll(p, s).messages
    decreases |s|
  {
    if s != [] {
      MessagesGrow(Feed(p, s[0]), s[1..]);
    }
  }

  lemma MoreText(a: string, b: string)
    ensures FeedAll(START, a).messages <= FeedAll(START, a + b).messages
  {
    FeedConcat(START, a, b);
    MessagesGrow(FeedAll(START, a), b);
  }

  /** A connection cut anywhere delivers a prefix of the events, never a damaged one. */
  lemma CutConnection(fs: seq<Frame>, n: nat)
    requires forall i :: 0 <= i < |fs| ==> Carriable(fs[i])
    requires n <= |WriteAll(fs)|
    ensures Parse(WriteAll(fs)[..n]) <= MeaningAll(fs)
  {
    var head, tail := WriteAll(fs)[..n], WriteAll(fs)[n..];
    assert head + tail == WriteAll(fs);
    MoreText(head, tail);
    FeedFrames(START, fs);
  }

  // ---- the parser on other streams -------------------------------------------------

  function Lines(ls: seq<string>, end: string): string
  {
    if ls == [] then "" else ls[0] + end + Lines(ls[1..], end)
  }

  function ProcessAll(p: Parser, ls: seq<string>): Parser
    decreases |ls|
  {
    if ls == [] then p else ProcessAll(ProcessLine(p, ls[0]), ls[1..])
  }

  predicate IsLineEnd(end: string) { end == "\n" || end == "\r" || end == "\r\n" }

  lemma FieldEither(p: Parser, field: string, value: string, cr: bool)
    ensures ProcessField(p.(afterCR := cr), field, value)
         == ProcessField(p, field, value).(afterCR := cr)
    ensures ProcessField(p, field, value).line == p.line
  {
  }

  lemma ProcessEither(p: Parser, line: string, cr: bool)
    ensures ProcessLine(p.(afterCR := cr), line) == ProcessLine(p, line).(afterCR := cr)
    ensures ProcessLine(p, line).line == p.line
  {
    if line != "" && line[0] != ':' {
      match Cut(line, ':')
      case None => FieldEither(p, line, "", cr);
      case Some((field, value)) =>
        FieldEither(p, field, if value != "" && value[0] == ' ' then value[1..] else value, cr);
    }
  }

  lemma FeedFresh(p: Parser, s: string)
    requires OneLine(s) && s != "" && p.line == ""
    ensures FeedAll(p, s) == p.(line := s, afterCR := false)
  {
    var q := Feed(p, s[0]);
    assert OneLine(s[1..]) && s == [s[0]] + s[1..];
    FeedText(q, s[1..]);
  }

  lemma FeedEnd(p: Parser, end: string)
    requires IsLineEnd(end) && (p.afterCR ==> p.line == "" && end == "\r")
    ensures FeedAll(p, end) == ProcessLine(p.(line := "", afterCR := end == "\r"), p.line)
  {
    var q := p.(line := "");
    if end == "\r\n" {
      var r := Feed(p, '\r');
      ProcessEither(q, p.line, true);
      ProcessEither(q, p.line, false);
      assert end == ['\r'] + "\n" && "\n"[1..] == [];
      assert r == ProcessLine(q.(afterCR := true), p.line) && r.afterCR;
      assert FeedAll(p, end) == FeedAll(r, "\n") == Feed(r, '\n');
    } else {
      assert end[1..] == [] && FeedAll(p, end) == Feed(p, end[0]);
      assert end[0] == '\r' <==> end == "\r";
    }
  }

  lemma FeedEnded(p: Parser, line: string, end: string)
    requires p.line == "" && OneLine(line) && IsLineEnd(end) && (p.afterCR ==> end == "\r")
    ensures FeedAll(p, line + end) == ProcessLine(p.(afterCR := end == "\r"), line)
  {
    FeedConcat(p, line, end);
    if line != "" {
      FeedFresh(p, line);
      FeedEnd(p.(line := line, afterCR := false), end);
    } else {
      FeedEnd(p, end);
    }
  }

  lemma {:induction false} SameMessages(p: Parser, cr: bool, ls: seq<string>)
    ensures ProcessAll(p.(afterCR := cr), ls).messages == ProcessAll(p, ls).messages
    decreases |ls|
  {
    if ls != [] {
      ProcessEither(p, ls[0], cr);
      SameMessages(ProcessLine(p, ls[0]), cr, ls[1..]);
    }
  }

  lemma {:induction false} FeedLines(p: Parser, ls: seq<string>, end: string)
    requires p.line == "" && IsLineEnd(end) && (p.afterCR ==> end == "\r")
    requires forall i :: 0 <= i < |ls| ==> OneLine(ls[i])
    ensures FeedAll(p, Lines(ls, end)).messages == ProcessAll(p, ls).messages
    decreases |ls|
  {
    if ls != [] {
      var cr := end == "\r";
      var q := p.(afterCR := cr);
      FeedConcat(p, ls[0] + end, Lines(ls[1..], end));
      FeedEnded(p, ls[0], end);
      ProcessEither(p, ls[0], cr);
      FeedLines(ProcessLine(q, ls[0]), ls[1..], end);
      SameMessages(ProcessLine(p, ls[0]), cr, ls[1..]);
    }
  }

  /** Lines end in LF, CR or CRLF, and it makes no difference which. */
  lemma LineEndings(ls: seq<string>, end: string)
    requires IsLineEnd(end) && forall i :: 0 <= i < |ls| ==> OneLine(ls[i])
    ensures Parse(Lines(ls, end)) == ProcessAll(START, ls).messages
  {
    FeedLines(START, ls, end);
  }

  lemma SplitLine(p: Parser, field: string, value: string)
    requires field != "" && ':' !in field
    ensures ProcessLine(p, field + ([':'] + value))
         == ProcessField(p, field, if value != "" && value[0] == ' ' then value[1..] else value)
  {
    CutAt(field, ':', value);
    assert field + ([':'] + value) == field + [':'] + value;
  }

  lemma BareLine(p: Parser, field: string)
    requires field != "" && ':' !in field
    ensures ProcessLine(p, field) == ProcessField(p, field, "")
  {
  }

  /** Comments are skipped; one space after the colon is not part of the value; an ID with a
      NUL is ignored, and a bare `id` clears it. */
  lemma FieldRules(p: Parser, v: string)
    ensures ProcessLine(p, ":" + v) == p
    ensures ProcessLine(p, "data" + ([':'] + (" " + v))) == p.(data := p.data + v + "\n")
    ensures v == "" || v[0] != ' ' ==>
              ProcessLine(p, "data" + ([':'] + v)) == p.(data := p.data + v + "\n")
    ensures ProcessLine(p, "event" + ([':'] + (" " + v))) == p.(eventType := v)
    ensures ProcessLine(p, "id" + ([':'] + (" " + v)))
         == if 0 as char in v then p else p.(lastId := v)
    ensures ProcessLine(p, "id") == p.(lastId := "")
  {
    assert (":" + v)[0] == ':' && (" " + v)[1..] == v;
    SplitLine(p, "data", " " + v);
    SplitLine(p, "data", v);
    SplitLine(p, "event", " " + v);
    SplitLine(p, "id", " " + v);
    BareLine(p, "id");
    assert |"data"| == 4 && |"event"| == 5 && |"id"| == 2;
  }

  /** A blank line dispatches what there is, under the name `message` unless another was given,
      without the last line end; no data, no event. */
  lemma BlankRule(p: Parser, v: string)
    ensures p.data == "" ==> ProcessLine(p, "") == p.(eventType := "")
    ensures p.data == v + "\n" ==>
              ProcessLine(p, "")
              == p.(eventType := "", data := "", messages := p.messages
                    + [Message(if p.eventType == "" then "message" else p.eventType, v, p.lastId)])
  {
    if p.data == v + "\n" {
      assert p.data[..|p.data| - 1] == v;
    }
  }
}
