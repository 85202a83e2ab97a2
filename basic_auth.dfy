/** `BasicAuth.extract_base64_authorization_header`: the credentials part of
    an `Authorization: Basic <credentials>` header (the 'Basic' scheme of
    section 2 of RFC 7617), Basic_authentication/api/v1/auth/basic_auth.py. */
module BasicAuth {
  import opened Wrappers
  import opened Strings

  const Prefix: string := "Basic "

  /** None for a missing or non-string header and for a header that does
      not start with exactly "Basic " (case and the single space included);
      otherwise everything after those six characters. */
  function ExtractBase64AuthorizationHeader(header: Dynamic): (r: Option<string>)
    ensures r.Some? <==> header.Text? && StartsWith(header.s, Prefix)
    ensures r.Some? ==> Prefix + r.value == header.s
  {
    match header
    case Text(s) =>
      if StartsWith(s, Prefix) then
        assert s == s[..6] + s[6..];
        Some(s[|Prefix|..])
      else None
    case _ => None
  }

  /** Extracting from "Basic " + s gives s back, for every s. */
  lemma ExtractAfterPrefix(s: string)
    ensures ExtractBase64AuthorizationHeader(Text(Prefix + s)) == Some(s)
  {
    assert (Prefix + s)[..|Prefix|] == Prefix;
  }

  /** The comparison is case-sensitive, unlike the scheme token of section
      2.1 of RFC 7235: a lower-case "basic " header is refused, and so is one
      with a tab in place of the space. */
  lemma SchemeIsCaseSensitive(s: string)
    ensures ExtractBase64AuthorizationHeader(Text("basic " + s)).None?
    ensures ExtractBase64AuthorizationHeader(Text("Basic\t" + s)).None?
  {
    assert ("basic " + s)[0] != Prefix[0];
    assert ("Basic\t" + s)[5] != Prefix[5];
  }
}
