/** src/server/routes.ts: `POST /api/check`. A module-level flag admits one check at a
    time; an admitted check streams its progress and its outcome as server-sent events.
    `JSON.stringify` is the parameter `encode`. */
module Routes {
  import opened Common
  import opened Text
  import opened Urls
  import opened Browser
  import opened TableAccess
  import opened Checker

  /** The events the handler sends: `{type, ...data}` before encoding. */
  datatype Event = StatusEvent(message: string) | ResultEvent(openTables: seq<string>, closedTables: seq<string>)
    | ErrorEvent(message: string)

  /** An encoder for event objects (the server's `JSON.stringify`). */
  type Encoder = Event -> string

  /** The reply to one request: a refusal with its status code and error text, or an event
      stream (status 200) with the text written to it and whether it was ended. */
  datatype HttpReply = Refused(status: nat, error: string) | Stream(text: string, ended: bool)

  const Busy: string := "Another check is already in progress. Please wait."
  const UrlRequired: string := "URL is required"
  const InvalidFormat: string := "Invalid URL format"

  /** `sendEvent(type, data)`: one frame. */
  function Frame(payload: string): (r: string)
    ensures |r| == |payload| + 8
    ensures r[..6] == "data: " && r[|r| - 2..] == "\n\n" && r[6..|r| - 2] == payload
  {
    "data: " + payload + "\n\n"
  }

  /** The text of a stream of frames. */
  function Frames(events: seq<Event>, encode: Encoder): string {
    if events == [] then "" else Frames(events[..|events| - 1], encode) + Frame(encode(events[|events| - 1]))
  }

  /** The events of a check: one status event per progress message, in order, then the
      terminal event when the check returned or threw. */
  function EventsOf(progress: seq<string>, out: CheckOutcome): (r: seq<Event>)
    ensures |r| >= |progress|
    ensures forall k :: 0 <= k < |progress| ==> r[k] == StatusEvent(progress[k])
  {
    StatusEvents(progress)
      + match out
        case Completed(o, c) => [ResultEvent(o, c)]
        case Aborted(m) => [ErrorEvent(m)]
        case AwaitingKey => []
        case ProcessExited => []
  }

  /** One status event per progress message, in order. */
  function StatusEvents(progress: seq<string>): (r: seq<Event>)
    ensures |r| == |progress|
    ensures forall k :: 0 <= k < |progress| ==> r[k] == StatusEvent(progress[k])
  {
    seq(|progress|, k requires 0 <= k < |progress| => StatusEvent(progress[k]))
  }

  /** One more progress message adds its frame to the stream. */
  lemma StatusFramesStep(messages: seq<string>, i: nat, encode: Encoder)
    requires i < |messages|
    ensures Frames(StatusEvents(messages[..i + 1]), encode)
      == Frames(StatusEvents(messages[..i]), encode) + Frame(encode(StatusEvent(messages[i])))
  {
    var a := StatusEvents(messages[..i + 1]);
    assert a[..|a| - 1] == StatusEvents(messages[..i]);
  }

  /** The stream of a check: the status frames, then the terminal frame when it settled. */
  lemma EventsOfFrames(progress: seq<string>, out: CheckOutcome, encode: Encoder)
    ensures Frames(EventsOf(progress, out), encode) == Frames(StatusEvents(progress), encode) +
      match out
      case Completed(o, c) => Frame(encode(ResultEvent(o, c)))
      case Aborted(m) => Frame(encode(ErrorEvent(m)))
      case AwaitingKey => ""
      case ProcessExited => ""
  {
    var es := EventsOf(progress, out);
    var st := StatusEvents(progress);
    if out.Completed? || out.Aborted? {
      assert es[..|es| - 1] == st;
    } else {
      assert es == st;
    }
  }

  predicate Terminal(e: Event) {
    e.ResultEvent? || e.ErrorEvent?
  }

  /** The handler's state: the module-level `isChecking` flag. */
  class CheckRoute {
    var isChecking: bool

    constructor ()
      ensures !isChecking
    {
      isChecking := false;
    }

    /** The handler on a request whose body carries `url` (None when absent). `out` and
        `progress` are what the check reported. */
    method Handle(url: Option<string>, web: Web, parse: Parser, keyAnswers: seq<string>, fetch: Fetch, encode: Encoder)
      returns (reply: HttpReply, ghost out: CheckOutcome, ghost progress: seq<string>)
      modifies this
      ensures old(isChecking) ==> reply == Refused(429, Busy) && isChecking
      ensures !old(isChecking) && (url.None? || url.value == "") ==> reply == Refused(400, UrlRequired) && !isChecking
      ensures !old(isChecking) && url.Some? && url.value != "" && NewUrlWrapper(url.value, parse).Failure? ==>
        reply == Refused(400, InvalidFormat) && !isChecking
      ensures reply.Stream? <==>
        !old(isChecking) && url.Some? && url.value != "" && NewUrlWrapper(url.value, parse).Success?
      ensures reply.Stream? ==>
        && reply.text == Frames(EventsOf(progress, out), encode)
        && progress != [] && progress[0] == Validating
        && (reply.ended <==> out.Completed? || out.Aborted?)
        && (isChecking <==> !reply.ended)
      ensures reply.Stream? ==>
        (out, progress) == CheckReport(NewUrlWrapper(url.value, parse).value, web, parse, keyAnswers, fetch)
    {
      if isChecking {
        return Refused(429, Busy), AwaitingKey, [];
      }
      if url.None? || url.value == "" {
        return Refused(400, UrlRequired), AwaitingKey, [];
      }
      var wrapped := NewUrlWrapper(url.value, parse);
      if wrapped.Failure? {
        return Refused(400, InvalidFormat), AwaitingKey, [];
      }
      isChecking := true;
      var text := "";
      var result, messages := CheckSupabaseSecurity(wrapped.value, web, parse, keyAnswers, fetch);
      out, progress := result, messages;
      // The progress callback sends one status event per message.
      var i := 0;
      while i < |messages|
        invariant 0 <= i <= |messages|
        invariant text == Frames(StatusEvents(messages[..i]), encode)
        invariant isChecking
      {
        StatusFramesStep(messages, i, encode);
        text := text + Frame(encode(StatusEvent(messages[i])));
        i := i + 1;
      }
      assert messages[..i] == messages;
      EventsOfFrames(messages, result, encode);
      match result {
        case Completed(o, c) =>
          text := text + Frame(encode(ResultEvent(o, c)));
          isChecking := false;
          return Stream(text, true), out, progress;
        case Aborted(m) =>
          text := text + Frame(encode(ErrorEvent(m)));
          isChecking := false;
          return Stream(text, true), out, progress;
        case AwaitingKey =>
          // The check never settles: no terminal event, no `finally`.
          return Stream(text, false), out, progress;
        case ProcessExited =>
          // `process.exit(0)` ends the server before any terminal event.
          return Stream(text, false), out, progress;
      }
    }

    /** The `close` listener on the request: the flag is cleared. */
    method OnClose()
      modifies this
      ensures !isChecking
    {
      isChecking := false;
    }
  }

  /** A check that settles sends exactly one terminal event, as the last event; one that
      does not settle sends none. */
  lemma ExactlyOneTerminal(progress: seq<string>, out: CheckOutcome)
    ensures var es := EventsOf(progress, out);
      forall k :: 0 <= k < |progress| ==> !Terminal(es[k])
    ensures var es := EventsOf(progress, out);
      (out.Completed? || out.Aborted?) <==> |es| == |progress| + 1 && Terminal(es[|es| - 1])
    ensures !(out.Completed? || out.Aborted?) ==> |EventsOf(progress, out)| == |progress|
  {
  }

  /** The result event carries the check's lists unchanged; the error event its message. */
  lemma TerminalCarriesOutcome(progress: seq<string>, out: CheckOutcome)
    requires out.Completed? || out.Aborted?
    ensures var last := EventsOf(progress, out)[|progress|];
      (out.Completed? ==> last == ResultEvent(out.openTables, out.closedTables))
      && (out.Aborted? ==> last == ErrorEvent(out.message))
  {
  }

  /** Sending two lists of events one after the other writes their frames one after the
      other. */
  lemma {:induction false} FramesAppend(a: seq<Event>, b: seq<Event>, encode: Encoder)
    ensures Frames(a + b, encode) == Frames(a, encode) + Frames(b, encode)
    decreases |b|
  {
    if b == [] {
      assert a + b == a;
    } else {
      var b', e := b[..|b| - 1], b[|b| - 1];
      assert (a + b)[..|a + b| - 1] == a + b' && (a + b)[|a + b| - 1] == e;
      FramesAppend(a, b', encode);
      calc {
        Frames(a + b, encode);
        Frames(a + b', encode) + Frame(encode(e));
        Frames(a, encode) + Frames(b', encode) + Frame(encode(e));
        Frames(a, encode) + (Frames(b', encode) + Frame(encode(e)));
        Frames(a, encode) + Frames(b, encode);
      }
    }
  }

  /** As written, the stream of a check of a provider URL with an accepted key: the three
      status events, then the error of the missing method. */
  lemma PromptedStreamAsWritten(url: Url, parse: Parser, keyAnswers: seq<string>, fetch: Fetch, web: Web)
    requires IsSupabaseUrl(url) && parse(Href(url)).Some? && Prompts.Ask(keyAnswers, Prompts.ValidateApiKey).Some?
    ensures EventsOf([Validating, GettingCredentials, CheckingTables], PromptedOutcomeAsWritten(url, keyAnswers, parse, fetch))
      == [StatusEvent(Validating), StatusEvent(GettingCredentials), StatusEvent(CheckingTables),
          ErrorEvent(Prompts.NotAFunction)]
  {
    PromptedCheckAsWrittenAborts(url, web, parse, keyAnswers, fetch);
  }
}
