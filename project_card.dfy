/** The project card's "Live Preview" link. */
module ProjectCard {
  import opened Wrappers
  import opened JsStrings

  const Scheme: string := "https://"

  /** A URL that already starts with "http" is kept; any other gets the https scheme prepended. */
  function NormaliseDemoUrl(url: string): (href: string)
    ensures StartsWith(href, "http")
    ensures |href| >= |url| && href[|href| - |url|..] == url
    ensures href == url <==> StartsWith(url, "http")
    ensures href != url ==> href[..|href| - |url|] == Scheme
  {
    if StartsWith(url, "http") then url else Scheme + url
  }

  /** Normalising an already normalised URL changes nothing. */
  lemma NormaliseIdempotent(url: string)
    ensures NormaliseDemoUrl(NormaliseDemoUrl(url)) == NormaliseDemoUrl(url)
  {
  }

  /** The link is rendered only for a present, non-empty URL. */
  function DemoLink(demoUrl: Option<string>): (href: Option<string>)
    ensures href.Some? <==> demoUrl.Some? && demoUrl.value != ""
    ensures href.Some? ==> StartsWith(href.value, "http")
    ensures href.Some? ==> href.value == NormaliseDemoUrl(demoUrl.value)
  {
    if demoUrl.Some? && demoUrl.value != "" then Some(NormaliseDemoUrl(demoUrl.value)) else None
  }
}
