/**
 * The PDF embed definition (src/tldraw/embeds/pdf-embed.ts): which URLs the canvas library may
 * embed as a PDF, and the way back from an embed URL to the original one.
 */
module PdfEmbed {
  import opened Wrappers
  import opened Strings

  const BlobScheme: string := "blob:"
  const PdfDataUrlPrefix: string := "data:application/pdf"
  const PdfExtension: string := ".pdf"

  /** A blob URL, a PDF data URL or a path ending in `.pdf` is embedded as it is; nothing else is. */
  function ToEmbedUrl(url: string): (r: Option<string>)
    ensures r.None? || r == Some(url)
  {
    if StartsWith(url, BlobScheme) || StartsWith(url, PdfDataUrlPrefix) then Some(url)
    else if EndsWith(url, PdfExtension) then Some(url)
    else None
  }

  function FromEmbedUrl(url: string): string {
    url
  }

  /** Exactly the three kinds of URL are accepted, whatever the rest of the URL is. */
  lemma EmbeddableUrls(url: string, rest: string)
    ensures ToEmbedUrl(url).Some? <==>
      StartsWith(url, BlobScheme) || StartsWith(url, PdfDataUrlPrefix) || EndsWith(url, PdfExtension)
    ensures ToEmbedUrl(BlobScheme + rest) == Some(BlobScheme + rest)
    ensures ToEmbedUrl(PdfDataUrlPrefix + rest) == Some(PdfDataUrlPrefix + rest)
    ensures ToEmbedUrl(rest + PdfExtension) == Some(rest + PdfExtension)
  {
    StartsWithPrefix(BlobScheme, rest);
    StartsWithPrefix(PdfDataUrlPrefix, rest);
    EndsWithSuffix(rest, PdfExtension);
  }

  /** Going to an embed URL and back gives the URL that was embedded. */
  lemma EmbedRoundTrip(url: string)
    requires ToEmbedUrl(url).Some?
    ensures FromEmbedUrl(ToEmbedUrl(url).value) == url
  {
  }
}
