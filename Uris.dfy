/** System.Uri as far as the engine uses it: construction from a string (which
    throws for a string that is not an absolute URI), the AbsolutePath component,
    and ToString(). */
module Uris {
  import opened Domain

  /** A parsed absolute URI. `text` is what ToString() renders. */
  datatype Uri = Uri(text: string, scheme: string, authority: string, absolutePath: string)

  const InvalidUriMessage := "Invalid URI: The format of the URI could not be determined."

  predicate IsSchemeChar(c: char)
  {
    ('a' <= c <= 'z') || ('A' <= c <= 'Z') || ('0' <= c <= '9') || c == '+' || c == '-' || c == '.'
  }

  /** RFC 3986 scheme: a letter followed by letters, digits, '+', '-' or '.'. */
  predicate IsScheme(s: string)
  {
    |s| > 0 && (('a' <= s[0] <= 'z') || ('A' <= s[0] <= 'Z'))
    && forall i :: 0 <= i < |s| ==> IsSchemeChar(s[i])
  }

  /** Index of the first character of `s` that is in `stops`, or |s|. */
  function IndexOfAny(s: string, stops: set<char>): (i: nat)
    ensures i <= |s|
    ensures i < |s| ==> s[i] in stops
    ensures forall j :: 0 <= j < i ==> s[j] !in stops
  {
    if s == [] then 0
    else if s[0] in stops then 0
    else 1 + IndexOfAny(s[1..], stops)
  }

  /** new Uri(s) for an absolute hierarchical URI "scheme://authority/path?query#fragment".
      The path ends at the query or fragment; an empty path is "/". */
  function ParseUri(s: string): (r: Try<Uri>)
    ensures r.Return? ==> r.value.text == s && IsScheme(r.value.scheme) && |r.value.authority| > 0
    ensures r.Return? ==> |r.value.absolutePath| > 0 && r.value.absolutePath[0] == '/'
    ensures r.Return? ==> '?' !in r.value.absolutePath && '#' !in r.value.absolutePath
    ensures r.Throw? ==> r.exn == Exn(InvalidUriMessage)
  {
    var colon := IndexOfAny(s, {':'});
    var scheme := s[..colon];
    if colon + 3 > |s| || s[colon..colon + 3] != "://" || !IsScheme(scheme) then
      Throw(Exn(InvalidUriMessage))
    else
      var afterScheme := s[colon + 3..];
      var authorityEnd := IndexOfAny(afterScheme, {'/', '?', '#'});
      var authority := afterScheme[..authorityEnd];
      var rest := afterScheme[authorityEnd..];
      var pathEnd := IndexOfAny(rest, {'?', '#'});
      var path := rest[..pathEnd];
      if authority == [] then Throw(Exn(InvalidUriMessage))
      else
        var absolutePath := if path == [] then "/" else path;
        assert path != [] ==> path[0] == '/';
        Return(Uri(s, scheme, authority, absolutePath))
  }

  /** A URI is recovered from its parts: scheme, "://", authority and an absolute
      path without query or fragment parse back to exactly those parts. */
  lemma ParseComposedUri(scheme: string, authority: string, path: string)
    requires IsScheme(scheme)
    requires |authority| > 0 && forall i :: 0 <= i < |authority| ==> authority[i] !in {':', '/', '?', '#'}
    requires |path| > 0 && path[0] == '/' && '?' !in path && '#' !in path
    ensures ParseUri(scheme + "://" + authority + path)
            == Return(Uri(scheme + "://" + authority + path, scheme, authority, path))
  {
    var s := scheme + "://" + authority + path;
    assert forall i :: 0 <= i < |scheme| ==> scheme[i] !in {':'} by {
      forall i | 0 <= i < |scheme| ensures scheme[i] != ':' { assert IsSchemeChar(scheme[i]); }
    }
    assert s == scheme + ("://" + authority + path);
    IndexOfAnyPrefix(scheme, "://" + authority + path, {':'});
    var colon := IndexOfAny(s, {':'});
    assert colon == |scheme|;
    assert s[..colon] == scheme;
    assert s[colon..colon + 3] == "://";
    var afterScheme := s[colon + 3..];
    assert afterScheme == authority + path;
    IndexOfAnyPrefix(authority, path, {'/', '?', '#'});
    var authorityEnd := IndexOfAny(afterScheme, {'/', '?', '#'});
    assert authorityEnd == |authority|;
    assert afterScheme[..authorityEnd] == authority;
    assert afterScheme[authorityEnd..] == path;
    assert IndexOfAny(path, {'?', '#'}) == |path| by {
      IndexOfAnyPrefix(path, [], {'?', '#'});
      assert path + [] == path;
    }
    assert path[..|path|] == path;
  }

  /** A prefix free of stop characters is skipped entirely by IndexOfAny. */
  lemma {:induction false} IndexOfAnyPrefix(p: string, t: string, stops: set<char>)
    requires forall i :: 0 <= i < |p| ==> p[i] !in stops
    requires t == [] || t[0] in stops
    ensures IndexOfAny(p + t, stops) == |p|
  {
    if p != [] {
      assert (p + t)[1..] == p[1..] + t;
      IndexOfAnyPrefix(p[1..], t, stops);
    }
  }
}
