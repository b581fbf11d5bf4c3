/**
 * The endpoint URL of the OpenAI-compatible connector of package
 * `faiconn`: the configured base URL is turned into the chat-completions
 * endpoint it posts to. The HTTP client and the JSON handling around it
 * are not part of this model.
 */
module CustomConn {
  import opened GoStrings

  /** The OpenAI-compatible chat endpoint path. */
  const ChatCompletions: GoString := "/chat/completions"

  /**
   * `buildFullURL`, applied to the connector's configured `URL`: a URL
   * that already ends in the endpoint path is kept as it is; otherwise one
   * trailing `/`, if there is one, is dropped and the path is appended.
   */
  function BuildFullURL(url: GoString): (r: GoString)
    ensures HasSuffix(r, ChatCompletions)
    ensures HasSuffix(url, ChatCompletions) ==> r == url
    ensures !HasSuffix(url, ChatCompletions) && |url| > 0 && url[|url| - 1] == '/' ==>
              r == url[..|url| - 1] + ChatCompletions
    ensures !HasSuffix(url, ChatCompletions) && (|url| == 0 || url[|url| - 1] != '/') ==>
              r == url + ChatCompletions
  {
    if HasSuffix(url, ChatCompletions) then url
    else TrimSuffix(url, "/") + ChatCompletions
  }

  /** Building the URL twice gives the same URL as building it once. */
  lemma BuildFullURLIdempotent(url: GoString)
    ensures BuildFullURL(BuildFullURL(url)) == BuildFullURL(url)
  {
  }

  /** Only one trailing slash is removed. */
  lemma OneSlashTrimmed()
    ensures BuildFullURL("x//") == "x//chat/completions"
    ensures BuildFullURL("x/") == "x/chat/completions"
  {
    assert "x/" + ChatCompletions == "x//chat/completions";
    assert "x" + ChatCompletions == "x/chat/completions";
  }

  /** A URL without a trailing slash gets the path appended as it is. */
  lemma PathAppended()
    ensures BuildFullURL("x") == "x/chat/completions"
  {
    var x: GoString := "x";
    assert |ChatCompletions| == 17;
    assert !HasSuffix(x, ChatCompletions);
    assert x[|x| - 1] != '/';
    assert x + ChatCompletions == "x/chat/completions";
  }

  /** A URL that already names the endpoint is left alone. */
  lemma EndpointKept()
    ensures BuildFullURL("x/chat/completions") == "x/chat/completions"
  {
  }
}
