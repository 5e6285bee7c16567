/** The browser page the discovery drives, reduced to what the core observes of it.

    A navigation is an abstract step: the oracle `web` says, for the n-th navigation of
    the page and its target, which requests the page sent while loading (delivered to the
    interceptor callback, in order), whether `goto` settled with a response or threw, and
    what document is loaded afterwards. Callbacks are delivered only inside navigations. */
module Browser {
  import opened Common
  import opened Types
  import opened Http
  import opened NetworkInterceptor

  /** A `<script>` element: its `src` property (empty when the attribute is absent) and its
      `textContent` (null for no text). */
  datatype ScriptElement = ScriptElement(src: string, text: Option<string>)

  /** An `<a href>` element: its resolved `href` and its `textContent`. */
  datatype Anchor = Anchor(href: string, text: Option<string>)

  /** The loaded document: its serialised HTML and its script and link elements in
      document order. */
  datatype Document = Document(html: string, scripts: seq<ScriptElement>, anchors: seq<Anchor>)

  const BlankDocument: Document := Document("<html><head></head><body></body></html>", [], [])

  /** What one navigation does. `Loaded` carries the main response (`null` when there is
      none); `Failed` is a `goto` that threw, with its message. */
  datatype NavOutcome =
    | Loaded(events: seq<ObservedRequest>, response: Option<Response>, doc: Document)
    | Failed(events: seq<ObservedRequest>, error: string, doc: Document)

  /** The web as seen from one page: the outcome of its n-th navigation to a target. */
  type Web = (nat, string) -> NavOutcome

  class Page {
    const web: Web
    /** Every navigation target so far, in order. */
    var log: seq<string>
    /** The document currently loaded. */
    var current: Document

    constructor (web: Web)
      ensures this.web == web && log == [] && current == BlankDocument
    {
      this.web := web;
      log := [];
      current := BlankDocument;
    }

    /** The outcome the next navigation to `url` will have. */
    function Next(url: string): NavOutcome
      reads this
    {
      web(|log|, url)
    }

    /** `page.goto(url)`: the requests sent while loading reach the interceptor on `rec`,
        the page shows the new document, and the call settles with the main response or
        the error it threw. */
    method Goto<U>(url: string, rec: AuthRecord<U>, wrap: string -> Option<U>) returns (r: Result<Option<Response>, string>)
      modifies this, rec
      ensures log == old(log) + [url]
      ensures current == old(Next(url)).doc
      ensures rec.Value() == ApplyAll(old(rec.Value()), old(Next(url)).events, wrap)
      ensures old(Next(url)).Loaded? ==> r == Success(old(Next(url)).response)
      ensures old(Next(url)).Failed? ==> r == Failure(old(Next(url)).error)
    {
      var o := Next(url);
      ObserveAll(rec, o.events, wrap);
      log := log + [url];
      current := o.doc;
      match o
      case Loaded(_, response, _) => r := Success(response);
      case Failed(_, error, _) => r := Failure(error);
    }
  }
}
