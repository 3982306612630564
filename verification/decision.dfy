/**
 The decision client: the three model-backed analysers of the crawler, with
 the model call replaced by its reply. Each one scans the reply for a JSON
 span, hands it to the decoder, and falls back to an empty value on every
 failure, so none of them ever raises.
 */
module Decision {
  import opened Wrappers
  import opened Json
  import JsonSpan

  /** What one chat-completion call produced: text, or an error (timeout, transport, API). */
  datatype Reply = Text(content: string) | CallFailed

  /** How many characters of page HTML a request carries. */
  const HtmlLimit := 4000

  /** `html[:4000]`: the excerpt of the page sent to the model. */
  function Excerpt(html: string): (r: string)
    ensures |r| <= HtmlLimit
    ensures r <= html
    ensures |html| <= HtmlLimit ==> r == html
    ensures |html| > HtmlLimit ==> |r| == HtmlLimit
  {
    html[..if |html| < HtmlLimit then |html| else HtmlLimit]
  }

  /** The parse shared by all three analysers: search, decode, or the fallback. */
  function ParseReply(reply: Reply, p: JsonSpan.Pattern, decode: Decoder, fallback: Json): Json
  {
    match reply
    case CallFailed => fallback
    case Text(t) =>
      match JsonSpan.Search(t, p)
      case None => fallback
      case Some(span) =>
        match decode(span)
        case None => fallback
        case Some(v) => v
  }

  /**
   The reply carried a span that the regex search selects and that decodes to
   `v`.
   */
  ghost predicate DecodedFrom(reply: Reply, p: JsonSpan.Pattern, decode: Decoder, v: Json)
  {
    && reply.Text?
    && exists sp :: JsonSpan.IsSearchResult(reply.content, p, sp)
         && decode(reply.content[sp.start..sp.end]) == Some(v)
  }

  /**
   `analyze_page_for_action` and `analyze_page_for_action_html_only` after
   the model call: the decoded span of the reply, or `{}`.
   */
  function AnalyseForAction(reply: Reply, decode: Decoder): (r: Json)
    ensures r == EmptyObject || DecodedFrom(reply, JsonSpan.ArrayOrObject, decode, r)
  {
    ParseResult(reply, JsonSpan.ArrayOrObject, decode);
    ParseReply(reply, JsonSpan.ArrayOrObject, decode, EmptyObject)
  }

  /** `extract_tariff_updates` after the model call: the decoded bracketed span, or `[]`. */
  function ExtractTariffUpdates(reply: Reply, decode: Decoder): (r: Json)
    ensures r == EmptyArray || DecodedFrom(reply, JsonSpan.ArrayOnly, decode, r)
  {
    ParseResult(reply, JsonSpan.ArrayOnly, decode);
    ParseReply(reply, JsonSpan.ArrayOnly, decode, EmptyArray)
  }

  /** Whatever the parse returns other than the fallback came from the selected span. */
  lemma ParseResult(reply: Reply, p: JsonSpan.Pattern, decode: Decoder)
    ensures forall fallback :: ParseReply(reply, p, decode, fallback) == fallback
              || DecodedFrom(reply, p, decode, ParseReply(reply, p, decode, fallback))
  {
    if reply.Text? {
      var t := reply.content;
      match JsonSpan.Locate(t, p)
      case None =>
      case Some(sp) =>
        JsonSpan.LocateIsReSearch(t, p, sp);
    }
  }

  /**
   The analysers never raise: a failed call, a reply with no span and a span
   the decoder rejects each give the empty value, and a span that decodes
   gives exactly the decoded value.
   */
  lemma {:induction false} FailuresGiveEmptyValues(reply: Reply, decode: Decoder)
    ensures reply.CallFailed? ==>
      AnalyseForAction(reply, decode) == EmptyObject && ExtractTariffUpdates(reply, decode) == EmptyArray
    ensures reply.Text? && (forall i :: 0 <= i < |reply.content| ==> !JsonSpan.CanStartAt(reply.content, JsonSpan.ArrayOrObject, i)) ==>
      AnalyseForAction(reply, decode) == EmptyObject
    ensures reply.Text? && (forall i :: 0 <= i < |reply.content| ==> !JsonSpan.CanStartAt(reply.content, JsonSpan.ArrayOnly, i)) ==>
      ExtractTariffUpdates(reply, decode) == EmptyArray
    ensures forall sp :: reply.Text? && JsonSpan.IsSearchResult(reply.content, JsonSpan.ArrayOrObject, sp) ==>
      AnalyseForAction(reply, decode) == (match decode(reply.content[sp.start..sp.end]) case None => EmptyObject case Some(v) => v)
    ensures forall sp :: reply.Text? && JsonSpan.IsSearchResult(reply.content, JsonSpan.ArrayOnly, sp) ==>
      ExtractTariffUpdates(reply, decode) == (match decode(reply.content[sp.start..sp.end]) case None => EmptyArray case Some(v) => v)
  {
    if reply.Text? {
      var t := reply.content;
      forall sp | JsonSpan.IsSearchResult(t, JsonSpan.ArrayOrObject, sp)
        ensures AnalyseForAction(reply, decode) == (match decode(t[sp.start..sp.end]) case None => EmptyObject case Some(v) => v)
      {
        JsonSpan.LocateIsReSearch(t, JsonSpan.ArrayOrObject, sp);
      }
      forall sp | JsonSpan.IsSearchResult(t, JsonSpan.ArrayOnly, sp)
        ensures ExtractTariffUpdates(reply, decode) == (match decode(t[sp.start..sp.end]) case None => EmptyArray case Some(v) => v)
      {
        JsonSpan.LocateIsReSearch(t, JsonSpan.ArrayOnly, sp);
      }
    }
  }

  /**
   The example of a reply with one array embedded in prose: the updates are
   exactly what the decoder makes of that array.
   */
  lemma EmbeddedUpdatesAreExtracted(pre: string, arr: string, post: string, decode: Decoder)
    requires forall i :: 0 <= i < |pre| ==> pre[i] != '['
    requires 2 <= |arr| && arr[0] == '[' && arr[|arr| - 1] == ']'
    requires forall j :: 0 <= j < |post| ==> post[j] != ']'
    ensures ExtractTariffUpdates(Text(pre + arr + post), decode)
              == (match decode(arr) case None => EmptyArray case Some(v) => v)
  {
    JsonSpan.EmbeddedArrayIsFound(pre, arr, post, JsonSpan.ArrayOnly);
  }
}
