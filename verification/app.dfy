/** src/public/app.js: the browser client of `POST /api/check`. It reads the event stream
    chunk by chunk, keeps the text after the last line feed in a buffer, and dispatches
    every complete `data: ` line. `JSON.parse` is the parameter `decode`; chunks arrive
    already decoded to text. */
module Client {
  import opened Common
  import opened Text
  import opened Routes

  /** A decoded event, as the dispatcher tells them apart by their `type`. */
  datatype Message = ShowStatus(message: string) | ShowData(openTables: seq<string>, closedTables: seq<string>)
    | ShowFailure(message: string) | Unknown

  /** A decoder (the page's `JSON.parse`): the message, or the text of the exception. */
  type Decoder = string -> Result<Message, string>

  /** What the server's reply looks like from the page: the request failed, a non-OK reply
      with the `error` field of its body ("" when absent), or an event stream in chunks. */
  datatype Answer = NetworkError(message: string) | NotOk(status: nat, error: string)
    | EventStream(chunks: seq<string>)

  /** The page state the handlers change (visibility is left out). */
  datatype ViewState = ViewState(progress: string, error: string, openHtml: string, closedHtml: string,
                                 submitDisabled: bool)

  const NoOpenTables: string := "<p class=\"empty\">No publicly accessible tables found</p>"
  const NoClosedTables: string := "<p class=\"empty\">No closed tables found</p>"
  const EnterUrl: string := "Please enter a URL"
  const DataPrefix: string := "data: "

  /** `names.map(t => "<li>" + t + "</li>").join("")`. */
  function ItemsHtml(names: seq<string>): string {
    if names == [] then "" else "<li>" + names[0] + "</li>" + ItemsHtml(names[1..])
  }

  /** One list of `showResults`: the placeholder when empty, otherwise a `<ul>` of items. */
  function ListHtml(names: seq<string>, placeholder: string): (r: string)
    ensures names == [] ==> r == placeholder
    ensures names != [] ==> r == "<ul>" + ItemsHtml(names) + "</ul>"
  {
    if names == [] then placeholder else "<ul>" + ItemsHtml(names) + "</ul>"
  }

  function ProgressShown(v: ViewState, message: string): ViewState {
    v.(progress := message)
  }

  function ErrorShown(v: ViewState, message: string): ViewState {
    v.(error := message, submitDisabled := false)
  }

  function ResultsShown(v: ViewState, openTables: seq<string>, closedTables: seq<string>): ViewState {
    v.(openHtml := ListHtml(openTables, NoOpenTables), closedHtml := ListHtml(closedTables, NoClosedTables),
       submitDisabled := false)
  }

  /** The page after `checkSecurity` has handled `answer`: an error shown, or the stream
      dispatched line by line. */
  function Answered(v: ViewState, answer: Answer, decode: Decoder): ViewState {
    match answer
    case NetworkError(m) => ErrorShown(v, m)
    case NotOk(status, e) => ErrorShown(v, NotOkMessage(status, e))
    case EventStream(chunks) => Run(v, Payloads(CompleteLines(Concat(chunks))), decode).view
  }

  /** The handler a message selects; an unknown type is ignored. */
  function Dispatched(v: ViewState, m: Message): ViewState {
    match m
    case ShowStatus(message) => ProgressShown(v, message)
    case ShowData(o, c) => ResultsShown(v, o, c)
    case ShowFailure(message) => ErrorShown(v, message)
    case Unknown => v
  }

  /** The payloads of the `data: ` lines, in order. */
  function Payloads(lines: seq<string>): (r: seq<string>)
    ensures |r| <= |lines|
  {
    if lines == [] then []
    else
      var last := lines[|lines| - 1];
      Payloads(lines[..|lines| - 1]) + (if StartsWith(last, DataPrefix) then [last[6..]] else [])
  }

  /** The page after dispatching `payloads` in order, and whether a decoding error stopped
      the reading (the exception leaves the read loop and is shown). */
  datatype Session = Session(view: ViewState, halted: bool)

  function Run(v: ViewState, payloads: seq<string>, decode: Decoder): Session {
    if payloads == [] then Session(v, false)
    else
      var s := Run(v, payloads[..|payloads| - 1], decode);
      if s.halted then s
      else
        match decode(payloads[|payloads| - 1])
        case Failure(e) => Session(ErrorShown(s.view, e), true)
        case Success(m) => Session(Dispatched(s.view, m), false)
  }

  /** One line of the loop: a `data: ` line is decoded and dispatched; others are skipped. */
  function LineStep(v: ViewState, line: string, decode: Decoder): Session {
    if !StartsWith(line, DataPrefix) then Session(v, false)
    else
      match decode(line[6..])
      case Failure(e) => Session(ErrorShown(v, e), true)
      case Success(m) => Session(Dispatched(v, m), false)
  }

  /** The page's state, with the handlers of app.js as methods. */
  class ClientView {
    var progress: string
    var error: string
    var openHtml: string
    var closedHtml: string
    var submitDisabled: bool

    constructor ()
      ensures Value() == ViewState("", "", "", "", false)
    {
      progress, error, openHtml, closedHtml, submitDisabled := "", "", "", "", false;
    }

    function Value(): ViewState
      reads this
    {
      ViewState(progress, error, openHtml, closedHtml, submitDisabled)
    }

    /** `showProgress(message)`. */
    method ShowProgress(message: string)
      modifies this
      ensures Value() == ProgressShown(old(Value()), message)
    {
      progress := message;
    }

    /** `showError(message)`: the button is enabled again. */
    method ShowError(message: string)
      modifies this
      ensures Value() == ErrorShown(old(Value()), message)
    {
      error := message;
      submitDisabled := false;
    }

    /** `showResults(data)`. */
    method ShowResults(openTables: seq<string>, closedTables: seq<string>)
      modifies this
      ensures Value() == ResultsShown(old(Value()), openTables, closedTables)
    {
      submitDisabled := false;
      if |openTables| == 0 {
        openHtml := NoOpenTables;
      } else {
        openHtml := "<ul>" + ItemsHtml(openTables) + "</ul>";
      }
      if |closedTables| == 0 {
        closedHtml := NoClosedTables;
      } else {
        closedHtml := "<ul>" + ItemsHtml(closedTables) + "</ul>";
      }
    }

    /** The body of `for (const line of lines)` on one line. */
    method DispatchLine(line: string, decode: Decoder) returns (halted: bool)
      modifies this
      ensures Session(Value(), halted) == LineStep(old(Value()), line, decode)
    {
      if StartsWith(line, DataPrefix) {
        var data := decode(line[6..]);
        if data.Failure? {
          ShowError(data.error);
          return true;
        }
        match data.value {
          case ShowStatus(m) => ShowProgress(m);
          case ShowData(o, c) => ShowResults(o, c);
          case ShowFailure(m) => ShowError(m);
          case Unknown =>
        }
      }
      return false;
    }

    /** `for (const line of lines)`: decode and dispatch each `data: ` line; `halted` when
        decoding threw. */
    method ProcessLines(lines: seq<string>, decode: Decoder) returns (halted: bool)
      modifies this
      ensures Session(Value(), halted) == Run(old(Value()), Payloads(lines), decode)
    {
      ghost var v0 := Value();
      var i := 0;
      while i < |lines|
        invariant 0 <= i <= |lines|
        invariant Run(v0, Payloads(lines[..i]), decode) == Session(Value(), false)
      {
        RunLineStep(v0, lines, i, decode);
        halted := DispatchLine(lines[i], decode);
        if halted {
          RunHaltedLines(v0, lines, i + 1, decode);
          return;
        }
        i := i + 1;
      }
      assert lines[..i] == lines;
      return false;
    }

    /** `checkSecurity(url)` once the request has been answered with `answer`. */
    method CheckSecurity(answer: Answer, decode: Decoder)
      modifies this
      ensures answer.NetworkError? ==> Value() == ErrorShown(old(Value()), answer.message)
      ensures answer.NotOk? ==> Value() == ErrorShown(old(Value()), NotOkMessage(answer.status, answer.error))
      ensures answer.EventStream? ==>
        Value() == Run(old(Value()), Payloads(CompleteLines(Concat(answer.chunks))), decode).view
      ensures Value() == Answered(old(Value()), answer, decode)
    {
      match answer {
        case NetworkError(m) =>
          ShowError(m);
        case NotOk(status, e) =>
          ShowError(NotOkMessage(status, e));
        case EventStream(chunks) =>
          ReadStream(chunks, decode);
      }
    }

    /** The read loop: `buffer` holds the text after the last line feed read so far. */
    method ReadStream(chunks: seq<string>, decode: Decoder)
      modifies this
      ensures Value() == Run(old(Value()), Payloads(CompleteLines(Concat(chunks))), decode).view
    {
      ghost var v0 := Value();
      var buffer := "";
      var i := 0;
      while i < |chunks|
        invariant 0 <= i <= |chunks|
        invariant buffer == PendingLine(Concat(chunks[..i]))
        invariant Run(v0, Payloads(CompleteLines(Concat(chunks[..i]))), decode) == Session(Value(), false)
      {
        var halted;
        buffer, halted := ReadChunk(buffer, chunks[i], chunks, i, v0, decode);
        if halted {
          StreamPrefix(chunks, i + 1);
          RunHaltSticks(v0, Payloads(CompleteLines(Concat(chunks[..i + 1]))),
            Payloads(CompleteLines(Concat(chunks))), decode);
          return;
        }
        i := i + 1;
      }
      assert chunks[..i] == chunks;
    }

    /** One turn of the read loop: append the chunk, split, keep the last piece, and
        dispatch the complete lines. */
    method ReadChunk(buffer: string, chunk: string, ghost chunks: seq<string>, ghost i: nat, ghost v0: ViewState,
                     decode: Decoder) returns (next: string, halted: bool)
      requires i < |chunks| && chunk == chunks[i]
      requires buffer == PendingLine(Concat(chunks[..i]))
      requires Run(v0, Payloads(CompleteLines(Concat(chunks[..i]))), decode) == Session(Value(), false)
      modifies this
      ensures next == PendingLine(Concat(chunks[..i + 1]))
      ensures Run(v0, Payloads(CompleteLines(Concat(chunks[..i + 1]))), decode) == Session(Value(), halted)
    {
      var lines := SplitLines(buffer + chunk);
      next := lines[|lines| - 1];
      ChunkStep(chunks, i);
      PayloadsAppend(CompleteLines(Concat(chunks[..i])), lines[..|lines| - 1]);
      RunAppend(v0, Payloads(CompleteLines(Concat(chunks[..i]))), Payloads(lines[..|lines| - 1]), decode);
      halted := ProcessLines(lines[..|lines| - 1], decode);
    }

    /** The submit handler on the text of the input. `request` is the URL sent, if any. */
    method Submit(input: string, answer: Answer, decode: Decoder) returns (request: Option<string>)
      modifies this
      ensures request.None? <==> AllWhitespace(input)
      ensures request.None? ==> Value() == ErrorShown(old(Value()), EnterUrl)
      ensures request.Some? ==> request.value == Trim(input) && request.value != ""
      ensures request.Some? ==>
        Value() == Answered(ProgressShown(old(Value()).(submitDisabled := true), "Validating URL..."), answer, decode)
    {
      var url := Trim(input);
      TrimEmptyIffBlank(input);
      if url == "" {
        ShowError(EnterUrl);
        return None;
      }
      submitDisabled := true;
      ShowProgress("Validating URL...");
      CheckSecurity(answer, decode);
      return Some(url);
    }
  }

  /** `errorData.error || "HTTP error " + status`. */
  function NotOkMessage(status: nat, error: string): (r: string)
    ensures error != "" ==> r == error
    ensures error == "" ==> r == "HTTP error " + NatToString(status)
  {
    if error != "" then error else "HTTP error " + NatToString(status)
  }

  // ---------------------------------------------------------------------------------------
  // The buffer and the line dispatch.

  lemma {:induction false} PayloadsAppend(a: seq<string>, b: seq<string>)
    ensures Payloads(a + b) == Payloads(a) + Payloads(b)
    decreases |b|
  {
    if b == [] {
      assert a + b == a;
    } else {
      assert (a + b)[..|a + b| - 1] == a + b[..|b| - 1];
      PayloadsAppend(a, b[..|b| - 1]);
    }
  }

  lemma PayloadsSnoc(lines: seq<string>, i: nat)
    requires i < |lines|
    ensures Payloads(lines[..i + 1]) ==
      Payloads(lines[..i]) + (if StartsWith(lines[i], DataPrefix) then [lines[i][6..]] else [])
  {
    assert lines[..i + 1][..i] == lines[..i];
  }

  lemma RunSnoc(v: ViewState, p: seq<string>, x: string, decode: Decoder)
    ensures Run(v, p + [x], decode) ==
      if Run(v, p, decode).halted then Run(v, p, decode)
      else match decode(x)
        case Failure(e) => Session(ErrorShown(Run(v, p, decode).view, e), true)
        case Success(m) => Session(Dispatched(Run(v, p, decode).view, m), false)
  {
    assert (p + [x])[..|p|] == p;
  }

  /** One more line, when reading has not stopped, is one `LineStep`. */
  lemma RunLineStep(v: ViewState, lines: seq<string>, i: nat, decode: Decoder)
    requires i < |lines| && !Run(v, Payloads(lines[..i]), decode).halted
    ensures Run(v, Payloads(lines[..i + 1]), decode) ==
      LineStep(Run(v, Payloads(lines[..i]), decode).view, lines[i], decode)
  {
    var line := lines[i];
    var p := Payloads(lines[..i]);
    PayloadsSnoc(lines, i);
    if StartsWith(line, DataPrefix) {
      RunSnoc(v, p, line[6..], decode);
    } else {
      assert p + [] == p;
    }
  }

  /** Once a decoding error has stopped the reading, later payloads change nothing. */
  lemma {:induction false} RunHaltSticks(v: ViewState, a: seq<string>, all: seq<string>, decode: Decoder)
    requires |a| <= |all| && all[..|a|] == a
    requires Run(v, a, decode).halted
    ensures Run(v, all, decode) == Run(v, a, decode)
    decreases |all|
  {
    if |a| < |all| {
      assert all[..|all| - 1][..|a|] == a;
      RunHaltSticks(v, a, all[..|all| - 1], decode);
    } else {
      assert all == a;
    }
  }

  /** Once the first `i` lines have stopped the reading, the rest of the lines change
      nothing. */
  lemma RunHaltedLines(v: ViewState, lines: seq<string>, i: nat, decode: Decoder)
    requires i <= |lines| && Run(v, Payloads(lines[..i]), decode).halted
    ensures Run(v, Payloads(lines), decode) == Run(v, Payloads(lines[..i]), decode)
  {
    PayloadsAppend(lines[..i], lines[i..]);
    assert lines[..i] + lines[i..] == lines;
    RunHaltSticks(v, Payloads(lines[..i]), Payloads(lines), decode);
  }

  /** Dispatching two lists of payloads one after the other. */
  lemma {:induction false} RunAppend(v: ViewState, a: seq<string>, b: seq<string>, decode: Decoder)
    ensures Run(v, a + b, decode) ==
      (var s := Run(v, a, decode); if s.halted then s else Run(s.view, b, decode))
    decreases |b|
  {
    if b == [] {
      assert a + b == a;
    } else {
      assert (a + b)[..|a + b| - 1] == a + b[..|b| - 1];
      RunAppend(v, a, b[..|b| - 1], decode);
    }
  }

  /** One more chunk: the buffer continues with it, the complete lines of the whole text
      grow by those of the buffer, and the new buffer is the text after the last line feed. */
  lemma ChunkStep(chunks: seq<string>, i: nat)
    requires i < |chunks|
    ensures var before := Concat(chunks[..i]);
      var lines := SplitLines(PendingLine(before) + chunks[i]);
      && CompleteLines(Concat(chunks[..i + 1])) == CompleteLines(before) + lines[..|lines| - 1]
      && PendingLine(Concat(chunks[..i + 1])) == lines[|lines| - 1]
  {
    var before := Concat(chunks[..i]);
    assert chunks[..i + 1] == chunks[..i] + [chunks[i]];
    ConcatAppend(chunks[..i], [chunks[i]]);
    LinesAppend(before, chunks[i]);
  }

  /** The payloads of a prefix of the chunks are a prefix of those of all chunks. */
  lemma StreamPrefix(chunks: seq<string>, i: nat)
    requires i <= |chunks|
    ensures var p := Payloads(CompleteLines(Concat(chunks[..i])));
      var all := Payloads(CompleteLines(Concat(chunks)));
      |p| <= |all| && all[..|p|] == p
  {
    var before := Concat(chunks[..i]);
    var after := Concat(chunks[i..]);
    assert chunks == chunks[..i] + chunks[i..];
    ConcatAppend(chunks[..i], chunks[i..]);
    LinesAppend(before, after);
    PayloadsAppend(CompleteLines(before), CompleteLines(PendingLine(before) + after));
  }

  // ---------------------------------------------------------------------------------------
  // The framing round trip with the server.

  /** A frame appended to a text with nothing pending adds its `data: ` line and an empty
      line, and leaves nothing pending. */
  lemma FrameAppend(a: string, payload: string)
    requires PendingLine(a) == "" && '\n' !in payload
    ensures CompleteLines(a + Frame(payload)) == CompleteLines(a) + [DataPrefix + payload, ""]
    ensures PendingLine(a + Frame(payload)) == ""
  {
    var line := DataPrefix + payload;
    assert '\n' !in line by {
      assert forall k :: 0 <= k < |line| ==> line[k] == if k < 6 then DataPrefix[k] else payload[k - 6];
    }
    SplitAppendLine(a, line);
    SplitAppendLine(a + line + "\n", "");
    assert a + Frame(payload) == a + line + "\n" + "" + "\n";
  }

  /** One frame splits into its `data: ` line and an empty line, and leaves nothing pending. */
  lemma FrameLines(payload: string)
    requires '\n' !in payload
    ensures CompleteLines(Frame(payload)) == [DataPrefix + payload, ""]
    ensures PendingLine(Frame(payload)) == ""
  {
    assert SplitLines("") == [""];
    FrameAppend("", payload);
    assert "" + Frame(payload) == Frame(payload);
  }

  /** The lines of one frame carry its payload once. */
  lemma FrameLinesPayload(p: string)
    ensures Payloads([DataPrefix + p, ""]) == [p]
  {
    var lines := [DataPrefix + p, ""];
    assert lines[..1] == [DataPrefix + p];
    assert StartsWith(DataPrefix + p, DataPrefix);
    assert (DataPrefix + p)[6..] == p;
  }

  /** Sending one more event adds its payload to those read back, and still leaves nothing
      pending. */
  lemma FramesStep(init: seq<Event>, e: Event, encode: Encoder)
    requires PendingLine(Frames(init, encode)) == "" && '\n' !in encode(e)
    ensures PendingLine(Frames(init + [e], encode)) == ""
    ensures Payloads(CompleteLines(Frames(init + [e], encode)))
      == Payloads(CompleteLines(Frames(init, encode))) + [encode(e)]
  {
    var p := encode(e);
    var prev := Frames(init, encode);
    assert (init + [e])[..|init|] == init;
    assert Frames(init + [e], encode) == prev + Frame(p);
    FrameAppend(prev, p);
    PayloadsAppend(CompleteLines(prev), [DataPrefix + p, ""]);
    FrameLinesPayload(p);
  }

  /** The text of the frames of `events` holds, as complete lines, exactly the frames'
      lines, and nothing pending. */
  lemma {:induction false} FramesLines(events: seq<Event>, encode: Encoder)
    requires forall k :: 0 <= k < |events| ==> '\n' !in encode(events[k])
    ensures PendingLine(Frames(events, encode)) == ""
    ensures Payloads(CompleteLines(Frames(events, encode))) == seq(|events|, k requires 0 <= k < |events| => encode(events[k]))
  {
    if events == [] {
      assert SplitLines("") == [""];
    } else {
      var init, e := events[..|events| - 1], events[|events| - 1];
      var before := seq(|init|, k requires 0 <= k < |init| => encode(init[k]));
      assert PendingLine(Frames(init, encode)) == "" && Payloads(CompleteLines(Frames(init, encode))) == before by {
        FramesLines(init, encode);
      }
      assert PendingLine(Frames(events, encode)) == ""
          && Payloads(CompleteLines(Frames(events, encode))) == before + [encode(e)] by {
        assert init + [e] == events;
        FramesStep(init, e, encode);
      }
      assert seq(|events|, k requires 0 <= k < |events| => encode(events[k])) == before + [encode(e)];
    }
  }

  /** However the server's stream is cut into chunks, the page dispatches the payloads of
      the events in the order they were sent, each exactly once. */
  lemma StreamRoundTrip(events: seq<Event>, encode: Encoder, chunks: seq<string>)
    requires forall k :: 0 <= k < |events| ==> '\n' !in encode(events[k])
    requires Concat(chunks) == Frames(events, encode)
    ensures Payloads(CompleteLines(Concat(chunks))) == seq(|events|, k requires 0 <= k < |events| => encode(events[k]))
  {
    FramesLines(events, encode);
  }

  /** Text after the last line feed when the stream ends is never dispatched: adding it
      changes no payload. */
  lemma TrailingTextIgnored(text: string, rest: string)
    requires PendingLine(text) == "" && '\n' !in rest
    ensures Payloads(CompleteLines(text + rest)) == Payloads(CompleteLines(text))
  {
    LinesAppend(text, rest);
    assert "" + rest == rest;
    NoNewlinePending(rest);
    assert CompleteLines(text) + [] == CompleteLines(text);
  }

  // ---------------------------------------------------------------------------------------
  // The HTML of `showResults` read back.

  /** The first index at or after `i` holding `c`, or `|s|`. */
  function IndexOf(s: string, i: nat, c: char): (r: nat)
    requires i <= |s|
    ensures i <= r <= |s|
    ensures r < |s| ==> s[r] == c
    ensures forall k :: i <= k < r ==> s[k] != c
    decreases |s| - i
  {
    if i == |s| || s[i] == c then i else IndexOf(s, i + 1, c)
  }

  /** Reads a run of `<li>name</li>` items back into the names (names without `<`). */
  function ParseItems(s: string): Option<seq<string>>
    decreases |s|
  {
    if s == "" then Some([])
    else if !StartsWith(s, "<li>") then None
    else
      var j := IndexOf(s, 4, '<');
      if !StartsAt(s, j, "</li>") then None
      else
        match ParseItems(s[j + 5..])
        case None => None
        case Some(rest) => Some([s[4..j]] + rest)
  }

  /** `IndexOf` finds the first `c` from `i` on. */
  lemma {:induction false} IndexOfFirst(s: string, i: nat, j: nat, c: char)
    requires i <= j < |s| && s[j] == c
    requires forall k :: i <= k < j ==> s[k] != c
    ensures IndexOf(s, i, c) == j
    decreases j - i
  {
    if i < j {
      IndexOfFirst(s, i + 1, j, c);
    }
  }

  /** The first item of a run: its name ends at the first `<`, where `</li>` starts. */
  lemma ItemHead(n: string, rest: string)
    requires '<' !in n
    ensures var s := "<li>" + n + "</li>" + rest;
      && StartsWith(s, "<li>") && IndexOf(s, 4, '<') == 4 + |n| && StartsAt(s, 4 + |n|, "</li>")
      && s[4..4 + |n|] == n && s[4 + |n| + 5..] == rest
  {
    var s := "<li>" + n + "</li>" + rest;
    assert s[..4] == "<li>";
    assert forall k :: 4 <= k < 4 + |n| ==> s[k] == n[k - 4];
    IndexOfFirst(s, 4, 4 + |n|, '<');
    assert s[4 + |n|..4 + |n| + 5] == "</li>";
    assert s[4..4 + |n|] == n;
    assert s[4 + |n| + 5..] == rest;
  }

  /** The items of names without `<` read back as those names, in order. */
  lemma {:induction false} ItemsRoundTrip(names: seq<string>)
    requires forall k :: 0 <= k < |names| ==> '<' !in names[k]
    ensures ParseItems(ItemsHtml(names)) == Some(names)
  {
    if names != [] {
      var n, tail := names[0], names[1..];
      ItemHead(n, ItemsHtml(tail));
      assert forall k :: 0 <= k < |tail| ==> '<' !in tail[k];
      ItemsRoundTrip(tail);
      assert [n] + tail == names;
    }
  }

  /** A non-empty list renders as `<ul>`, its items in order, `</ul>`; an empty one as its
      placeholder, which is never a list. */
  lemma ListHtmlShape(names: seq<string>, placeholder: string)
    requires forall k :: 0 <= k < |names| ==> '<' !in names[k]
    requires !StartsWith(placeholder, "<ul>")
    ensures var h := ListHtml(names, placeholder);
      (names == [] <==> !StartsWith(h, "<ul>"))
      && (names != [] ==> |h| >= 9 && h[|h| - 5..] == "</ul>" && ParseItems(h[4..|h| - 5]) == Some(names))
  {
    if names != [] {
      var h := ListHtml(names, placeholder);
      var items := ItemsHtml(names);
      assert h[..4] == "<ul>";
      assert h[4..|h| - 5] == items;
      ItemsRoundTrip(names);
    }
  }
}
