/**
 * The click handler's effect on the page: the re-entrancy guard on the
 * `data-downloading` attribute, the placeholder swap, the dots interval and
 * the `finally` step that puts the link back, together with the module-level
 * `files` object that keeps each link's original content keyed by href.
 */
module Lifecycle {
  import opened Wrappers
  import opened Options
  import opened Dots
  import opened Filenames

  /** What the handler sees of an element: content, `href` attribute, `data-downloading` attribute. */
  datatype ElementState = ElementState(innerHTML: string, href: Option<string>, downloading: Option<string>)

  /**
   * `element.href` as read at the top of the handler: "" when the attribute
   * is absent, otherwise the attribute resolved by the browser against the
   * document's base URL, which `resolveUrl` stands for.
   */
  function HrefOf(e: ElementState, resolveUrl: string -> string): string {
    match e.href
    case None => ""
    case Some(attribute) => resolveUrl(attribute)
  }

  /** `element.getAttribute("data-downloading")` is truthy: an empty value does not block. */
  predicate InFlight(e: ElementState) {
    Present(e.downloading)
  }

  /** A link in the page, as far as the directive touches it. */
  class Element {
    var innerHTML: string
    var href: Option<string>
    var downloading: Option<string>

    constructor (innerHTML: string, href: Option<string>)
      ensures State() == ElementState(innerHTML, href, None)
    {
      this.innerHTML := innerHTML;
      this.href := href;
      this.downloading := None;
    }

    function State(): ElementState
      reads this
    {
      ElementState(innerHTML, href, downloading)
    }
  }

  /** The module-level `files` object: one saved content per href, shared by every link. */
  class Files {
    var saved: map<string, string>

    constructor ()
      ensures saved == map[]
    {
      saved := map[];
    }
  }

  /** What the transport reports: a response with its headers, or a rejected request. */
  datatype Response = Received(headers: map<string, string>) | RequestFailed

  /** Why the promise chain ends rejected; the `catch` rethrows either. */
  datatype DownloadError = TransportError | NoFilenameMatch

  /** How the promise chain settles: a save under a name, or a rethrown error. */
  datatype Outcome = Saved(fileName: string) | Rethrown(error: DownloadError)

  /** The `then` callback's result for a response fetched from `href`. */
  function Settle(href: string, response: Response): (o: Outcome)
    ensures response.RequestFailed? ==> o == Rethrown(TransportError)
    ensures response.Received? && FileName(href, response.headers).Some? ==>
              o == Saved(FileName(href, response.headers).value)
    ensures response.Received? && FileName(href, response.headers).None? ==>
              o == Rethrown(NoFilenameMatch)
  {
    match response
    case RequestFailed => Rethrown(TransportError)
    case Received(headers) =>
      match FileName(href, headers)
      case Some(name) => Saved(name)
      case None => Rethrown(NoFilenameMatch)
  }

  /**
   * One accepted click still in progress: the closure state shared by the
   * interval callback and the promise callbacks.
   */
  class Download {
    const element: Element
    const files: Files
    /** The href captured before the attribute was removed. */
    const href: string
    /** `options.downloadingText`, against which the interval measures the content. */
    const text: string
    /** The interval has not been cleared. */
    var ticking: bool

    constructor (element: Element, files: Files, href: string, text: string)
      ensures this.element == element && this.files == files
      ensures this.href == href && this.text == text && ticking
    {
      this.element := element;
      this.files := files;
      this.href := href;
      this.text := text;
      ticking := true;
    }

    /** One firing of the interval; after `clearInterval` there is none, so nothing changes. */
    method Tick()
      modifies element
      ensures element.innerHTML == if ticking then Ticked(old(element.innerHTML), text) else old(element.innerHTML)
      ensures element.href == old(element.href) && element.downloading == old(element.downloading)
    {
      if ticking {
        element.innerHTML := Ticked(element.innerHTML, text);
      }
    }

    /**
     * The interval firing `ticks` times while the request is pending; `shown`
     * is the content after each firing.
     */
    method TickRepeatedly(ticks: nat) returns (ghost shown: seq<string>)
      requires ticking
      modifies element
      ensures |shown| == ticks
      ensures forall k :: 0 <= k < ticks ==> shown[k] == Ticks(old(element.innerHTML), text, k + 1)
      ensures element.innerHTML == Ticks(old(element.innerHTML), text, ticks)
      ensures element.href == old(element.href) && element.downloading == old(element.downloading)
    {
      shown := [];
      var k := 0;
      while k < ticks
        invariant 0 <= k <= ticks
        invariant element.innerHTML == Ticks(old(element.innerHTML), text, k)
        invariant |shown| == k
        invariant forall i :: 0 <= i < k ==> shown[i] == Ticks(old(element.innerHTML), text, i + 1)
        invariant element.href == old(element.href) && element.downloading == old(element.downloading)
      {
        Tick();
        k := k + 1;
        shown := shown + [element.innerHTML];
      }
    }

    /**
     * The request settles: derive the file name on success, then, on every
     * path, clear the interval, restore the content saved under the href as
     * it stands now, put the href back and drop the in-flight marker.
     */
    method Finish(response: Response) returns (outcome: Outcome)
      requires ticking
      requires href in files.saved
      modifies this, element
      ensures !ticking
      ensures element.State() == ElementState(files.saved[href], Some(href), None)
      ensures outcome == Settle(href, response)
    {
      outcome := Settle(href, response);
      ticking := false;
      element.innerHTML := files.saved[href];
      element.href := Some(href);
      element.downloading := None;
    }
  }

  /** What the handler returns: it throws, returns `false`, or starts a download and issues a request. */
  datatype Click =
    | Threw(error: ConfigError)
    | Cancelled
    | Started(download: Download, request: Request)

  /**
   * The synchronous part of `eventClick`: resolve the options (which may
   * throw before anything is touched), test and set the in-flight marker,
   * save the content under the href, show the placeholder, remove the href
   * attribute, start the interval and issue the authorised GET.
   */
  method EventClick(element: Element, files: Files, binding: BindingValue, plugin: PluginOptions,
                    resolveUrl: string -> string)
    returns (r: Click)
    modifies element, files
    ensures r.Threw? <==> Resolve(binding, plugin).Failure?
    ensures r.Threw? ==> r.error == MissingToken
    ensures r.Cancelled? <==> Resolve(binding, plugin).Success? && InFlight(old(element.State()))
    ensures !r.Started? ==> element.State() == old(element.State()) && files.saved == old(files.saved)
    ensures r.Started? ==>
              var href := HrefOf(old(element.State()), resolveUrl);
              var options := Resolve(binding, plugin).value;
              && element.State() == ElementState(Placeholder(plugin, options), None, Some("true"))
              && files.saved == old(files.saved)[href := old(element.innerHTML)]
              && fresh(r.download)
              && r.download.element == element && r.download.files == files
              && r.download.href == href && r.download.text == options.downloadingText
              && r.download.ticking
              && r.request == AuthorizedGet(href, options.token)
  {
    var href := HrefOf(element.State(), resolveUrl);
    var resolved := Resolve(binding, plugin);
    if resolved.Failure? {
      return Threw(resolved.error);
    }
    var options := resolved.value;
    if InFlight(element.State()) {
      return Cancelled;
    }
    element.downloading := Some("true");
    files.saved := files.saved[href := element.innerHTML];
    element.innerHTML := Placeholder(plugin, options);
    element.href := None;
    var download := new Download(element, files, href, options.downloadingText);
    r := Started(download, AuthorizedGet(href, options.token));
  }

  /**
   * A click followed by `ticks` firings of the interval and the request
   * settling with `response`, with no other click in between. `shown` is the
   * content after each firing: in text mode, always the placeholder text and
   * at most two dots. Whatever the outcome, the link ends with its original
   * content, its href attribute set to `element.href` as read at the click,
   * and no in-flight marker; so a link whose attribute was already in resolved
   * form and had no marker is exactly as before.
   */
  method RunLifecycle(element: Element, files: Files, binding: BindingValue, plugin: PluginOptions,
                      resolveUrl: string -> string, ticks: nat, response: Response)
    returns (r: Click, ghost shown: seq<string>, outcome: Option<Outcome>)
    modifies element, files
    ensures r.Started? <==> Resolve(binding, plugin).Success? && !InFlight(old(element.State()))
    ensures !r.Started? ==> outcome.None? && shown == [] && element.State() == old(element.State())
    ensures !r.Started? ==> files.saved == old(files.saved)
    ensures r.Started? ==>
              var options := Resolve(binding, plugin).value;
              && |shown| == ticks
              && (forall k :: 0 <= k < ticks ==>
                    shown[k] == Ticks(Placeholder(plugin, options), options.downloadingText, k + 1))
              && (TextMode(plugin) ==>
                    forall k :: 0 <= k < ticks ==> TextWithFewDots(shown[k], options.downloadingText))
    ensures r.Started? ==>
              && outcome == Some(Settle(HrefOf(old(element.State()), resolveUrl), response))
              && element.State() == ElementState(old(element.innerHTML), Some(HrefOf(old(element.State()), resolveUrl)), None)
              && !r.download.ticking
              && files.saved == old(files.saved)[HrefOf(old(element.State()), resolveUrl) := old(element.innerHTML)]
    ensures r.Started? && old(element.href).Some? && old(element.downloading).None? &&
            resolveUrl(old(element.href).value) == old(element.href).value ==>
              element.State() == old(element.State())
  {
    shown := [];
    r := EventClick(element, files, binding, plugin, resolveUrl);
    if !r.Started? {
      return r, shown, None;
    }
    var download := r.download;
    shown := download.TickRepeatedly(ticks);
    if TextMode(plugin) {
      TextModeShownBounded(download.text, shown);
    }
    var settled := download.Finish(response);
    outcome := Some(settled);
  }

  /**
   * A second click on a link whose download is still in progress returns
   * `false` and changes nothing: the content saved for its href is still the
   * original one, not the placeholder.
   */
  method ClickTwice(element: Element, files: Files, binding: BindingValue, plugin: PluginOptions,
                    resolveUrl: string -> string)
    returns (first: Click, second: Click)
    requires !InFlight(element.State())
    requires Resolve(binding, plugin).Success?
    modifies element, files
    ensures first.Started? && second.Cancelled?
    ensures first.download.ticking
    ensures element.State() == ElementState(Placeholder(plugin, Resolve(binding, plugin).value), None, Some("true"))
    ensures HrefOf(old(element.State()), resolveUrl) in files.saved
    ensures files.saved[HrefOf(old(element.State()), resolveUrl)] == old(element.innerHTML)
    ensures files.saved == old(files.saved)[HrefOf(old(element.State()), resolveUrl) := old(element.innerHTML)]
  {
    first := EventClick(element, files, binding, plugin, resolveUrl);
    second := EventClick(element, files, binding, plugin, resolveUrl);
  }

  /**
   * Two links with the same href clicked one after the other share one entry
   * of `files`: when the first one's request settles, it shows the second
   * one's original content, not its own.
   */
  method SharedHrefRace(first: Element, second: Element, files: Files,
                        binding: BindingValue, plugin: PluginOptions, resolveUrl: string -> string,
                        response: Response)
    returns (a: Click, b: Click, outcome: Outcome)
    requires first != second
    requires HrefOf(first.State(), resolveUrl) == HrefOf(second.State(), resolveUrl)
    requires !InFlight(first.State()) && !InFlight(second.State())
    requires Resolve(binding, plugin).Success?
    modifies first, second, files
    ensures a.Started? && b.Started?
    ensures first.innerHTML == old(second.innerHTML)
    ensures second.innerHTML == Placeholder(plugin, Resolve(binding, plugin).value)
    ensures HrefOf(old(first.State()), resolveUrl) in files.saved
    ensures files.saved[HrefOf(old(first.State()), resolveUrl)] == old(second.innerHTML)
    ensures files.saved == old(files.saved)[HrefOf(old(first.State()), resolveUrl) := old(second.innerHTML)]
  {
    ghost var href, saved := HrefOf(first.State(), resolveUrl), files.saved;
    ghost var firstContent, secondContent := first.innerHTML, second.innerHTML;
    a := EventClick(first, files, binding, plugin, resolveUrl);
    assert files.saved == saved[href := firstContent];
    b := EventClick(second, files, binding, plugin, resolveUrl);
    assert files.saved == saved[href := firstContent][href := secondContent] == saved[href := secondContent];
    outcome := a.download.Finish(response);
  }
}
