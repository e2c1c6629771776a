/**
 * Option resolution at the start of the click handler: which token authorises
 * the request and which text stands in for the link while it downloads, and
 * the request that is then issued.
 */
module Options {
  import opened Wrappers

  /**
   * JavaScript truthiness of a string-valued option: a missing field and the
   * empty string are both absent. The source tests `x && x !== ""`, which for
   * strings is the same test.
   */
  predicate Present(field: Option<string>) {
    field.Some? && field.value != ""
  }

  /**
   * The directive's binding value. Only an object (`typeof value === "object"`)
   * is consulted; any other value (a string, a number, undefined) is NonObject.
   * A `null` binding value, for which the source would throw a TypeError when
   * reading `.token`, is not modelled.
   */
  datatype BindingValue =
    | NonObject
    | Object(token: Option<string>, downloadingText: Option<string>)

  /**
   * The plugin-wide options given to `install`. The source reads
   * `pluginOptions.textMode` unguarded, so they are always an object here.
   */
  datatype PluginOptions = PluginOptions(
    token: Option<string>,
    textMode: Option<string>,
    downloadingText: Option<string>,
    downloadingHtml: string)

  /**
   * The handler's local `options` record once resolved. Its `textMode` field is
   * never read by the source (which consults `pluginOptions.textMode`), so it is
   * not kept.
   */
  datatype Options = Options(token: string, downloadingText: string)

  /** The error thrown when no tier supplies a token. */
  datatype ConfigError = MissingToken

  const DefaultDownloadingText: string := "Downloading"
  const AuthorizationHeader: string := "Authorization"
  const BearerPrefix: string := "Bearer "

  function BindingToken(b: BindingValue): Option<string> {
    if b.Object? then b.token else None
  }

  function BindingText(b: BindingValue): Option<string> {
    if b.Object? then b.downloadingText else None
  }

  /** `pluginOptions.textMode === "text"`: anything else, unset included, is HTML mode. */
  predicate TextMode(p: PluginOptions) {
    p.textMode == Some("text")
  }

  /**
   * Reference definition of tiered precedence: the index of the first present
   * tier, or None when every tier is absent.
   */
  function FirstPresent(tiers: seq<Option<string>>): (k: Option<nat>)
    ensures k.Some? ==> k.value < |tiers| && Present(tiers[k.value])
    ensures k.Some? ==> forall i :: 0 <= i < k.value ==> !Present(tiers[i])
    ensures k.None? ==> forall i :: 0 <= i < |tiers| ==> !Present(tiers[i])
  {
    if tiers == [] then None
    else if Present(tiers[0]) then Some(0)
    else match FirstPresent(tiers[1..])
      case None => None
      case Some(k) => Some(k + 1)
  }

  /** The value of the first present tier, if any. */
  function FirstPresentValue(tiers: seq<Option<string>>): (v: Option<string>)
    ensures v.Some? ==> v.value != ""
    ensures v.Some? ==> exists k :: 0 <= k < |tiers| && tiers[k] == Some(v.value) &&
                          forall i :: 0 <= i < k ==> !Present(tiers[i])
    ensures v.None? <==> forall i :: 0 <= i < |tiers| ==> !Present(tiers[i])
  {
    match FirstPresent(tiers)
    case None => None
    case Some(k) => Some(tiers[k].value)
  }

  /** Token tiers: binding value, then plugin options; nothing left means the handler throws. */
  function ResolveToken(b: BindingValue, p: PluginOptions): (r: Result<string, ConfigError>)
    ensures r.Success? <==> Present(BindingToken(b)) || Present(p.token)
    ensures r.Success? ==> r.value != ""
    ensures Present(BindingToken(b)) ==> r == Success(BindingToken(b).value)
    ensures !Present(BindingToken(b)) && Present(p.token) ==> r == Success(p.token.value)
  {
    if Present(BindingToken(b)) then Success(BindingToken(b).value)
    else if Present(p.token) then Success(p.token.value)
    else Failure(MissingToken)
  }

  /**
   * The placeholder text. Only in text mode is it overridden, by the binding
   * value first and the plugin option second; otherwise it keeps the default.
   */
  function ResolveDownloadingText(b: BindingValue, p: PluginOptions): (t: string)
    ensures t != ""
    ensures !TextMode(p) ==> t == DefaultDownloadingText
    ensures TextMode(p) && Present(BindingText(b)) ==> t == BindingText(b).value
    ensures TextMode(p) && !Present(BindingText(b)) && Present(p.downloadingText) ==>
              t == p.downloadingText.value
    ensures TextMode(p) && !Present(BindingText(b)) && !Present(p.downloadingText) ==>
              t == DefaultDownloadingText
  {
    if TextMode(p) then
      if Present(BindingText(b)) then BindingText(b).value
      else if Present(p.downloadingText) then p.downloadingText.value
      else DefaultDownloadingText
    else DefaultDownloadingText
  }

  /** Both resolutions, in the source's order: the token first, which alone can throw. */
  function Resolve(b: BindingValue, p: PluginOptions): (r: Result<Options, ConfigError>)
    ensures r.Failure? <==> !Present(BindingToken(b)) && !Present(p.token)
    ensures r.Failure? ==> r.error == MissingToken
    ensures r.Success? ==> r.value.token != "" && r.value.downloadingText != ""
    ensures !TextMode(p) && r.Success? ==> r.value.downloadingText == DefaultDownloadingText
    ensures r.Success? ==> r.value == Options(ResolveToken(b, p).value, ResolveDownloadingText(b, p))
  {
    match ResolveToken(b, p)
    case Failure(e) => Failure(e)
    case Success(token) => Success(Options(token, ResolveDownloadingText(b, p)))
  }

  /** With two tiers, the first present one wins, and nothing is present only when both are absent. */
  lemma FirstTwoTiers(tiers: seq<Option<string>>)
    requires |tiers| == 2
    ensures Present(tiers[0]) ==> FirstPresentValue(tiers) == tiers[0]
    ensures !Present(tiers[0]) && Present(tiers[1]) ==> FirstPresentValue(tiers) == tiers[1]
    ensures !Present(tiers[0]) && !Present(tiers[1]) ==> FirstPresentValue(tiers) == None
  {
  }

  /** Token resolution is the two-tier precedence chain binding > plugin. */
  lemma {:induction false} TokenFollowsPrecedence(b: BindingValue, p: PluginOptions)
    ensures ResolveToken(b, p).Success? <==> FirstPresentValue([BindingToken(b), p.token]).Some?
    ensures ResolveToken(b, p).Success? ==>
              ResolveToken(b, p).value == FirstPresentValue([BindingToken(b), p.token]).value
  {
    var tiers := [BindingToken(b), p.token];
    FirstTwoTiers(tiers);
  }

  /** In text mode the placeholder is the chain binding > plugin > "Downloading". */
  lemma {:induction false} TextFollowsPrecedence(b: BindingValue, p: PluginOptions)
    requires TextMode(p)
    ensures ResolveDownloadingText(b, p)
              == FirstPresentValue([BindingText(b), p.downloadingText]).GetOr(DefaultDownloadingText)
  {
    var tiers := [BindingText(b), p.downloadingText];
    FirstTwoTiers(tiers);
  }

  /** What the link shows once a click is accepted. */
  function Placeholder(p: PluginOptions, o: Options): (s: string)
    ensures TextMode(p) ==> s == o.downloadingText
    ensures !TextMode(p) ==> s == p.downloadingHtml
  {
    if TextMode(p) then o.downloadingText else p.downloadingHtml
  }

  /** An HTTP request as handed to the transport. */
  datatype Request = Request(verb: string, url: string, headers: map<string, string>)

  /** The GET to the captured href with its single bearer-token header. */
  function AuthorizedGet(href: string, token: string): (r: Request)
    ensures r.verb == "GET" && r.url == href
    ensures r.headers.Keys == {AuthorizationHeader}
    ensures |r.headers[AuthorizationHeader]| == |BearerPrefix| + |token|
    ensures r.headers[AuthorizationHeader][..|BearerPrefix|] == BearerPrefix
    ensures r.headers[AuthorizationHeader][|BearerPrefix|..] == token
  {
    Request("GET", href, map[AuthorizationHeader := BearerPrefix + token])
  }
}
