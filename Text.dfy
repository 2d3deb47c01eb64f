/** The string primitives of the .NET base library that the engine relies on:
    string.IsNullOrWhiteSpace, ordinal case-insensitive equality, String.Split with
    RemoveEmptyEntries, and the decimal rendering of integers used in error texts. */
module Text {
  import opened Domain

  /** char.IsWhiteSpace: the Unicode space separators plus the line and paragraph
      separators and the control characters U+0009..U+000D and U+0085. */
  predicate IsWhiteSpace(c: char)
  {
    || c == ' '
    || ('\t' <= c <= '\r')
    || c == '\U{0085}'
    || c == '\U{00A0}'
    || c == '\U{1680}'
    || ('\U{2000}' <= c <= '\U{200A}')
    || c == '\U{2028}'
    || c == '\U{2029}'
    || c == '\U{202F}'
    || c == '\U{205F}'
    || c == '\U{3000}'
  }

  predicate IsBlank(s: string)
  {
    forall i :: 0 <= i < |s| ==> IsWhiteSpace(s[i])
  }

  /** string.IsNullOrWhiteSpace, with `None` standing for null. */
  predicate IsNullOrWhiteSpace(s: Option<string>)
  {
    s.None? || IsBlank(s.value)
  }

  /** string.IsNullOrWhiteSpace holds for null, for the empty string and for a string
      of white space only; one character that is not white space makes it false. */
  lemma NullOrWhiteSpaceCases(s: string)
    ensures IsNullOrWhiteSpace(None) && IsNullOrWhiteSpace(Some(""))
    ensures !IsNullOrWhiteSpace(Some(s)) <==> exists i :: 0 <= i < |s| && !IsWhiteSpace(s[i])
    ensures IsNullOrWhiteSpace(Some(s)) && |s| > 0 ==> IsWhiteSpace(s[0]) && IsNullOrWhiteSpace(Some(s[1..]))
  {
    if IsNullOrWhiteSpace(Some(s)) && |s| > 0 {
      forall i | 0 <= i < |s[1..]|
        ensures IsWhiteSpace(s[1..][i])
      {
        assert s[1..][i] == s[i + 1];
      }
    }
  }

  function ToUpperAscii(c: char): (u: char)
    ensures 'a' <= c <= 'z' ==> 'A' <= u <= 'Z'
    ensures !('a' <= c <= 'z') ==> u == c
  {
    if 'a' <= c <= 'z' then (c as int - 32) as char else c
  }

  /** StringComparison.OrdinalIgnoreCase, restricted to ASCII case folding. */
  predicate EqualsOrdinalIgnoreCase(a: string, b: string)
  {
    |a| == |b| && forall i :: 0 <= i < |a| ==> ToUpperAscii(a[i]) == ToUpperAscii(b[i])
  }

  /** Index of the first occurrence of `sep` in `s`, or |s| when there is none. */
  function IndexOf(s: string, sep: char): (i: nat)
    ensures i <= |s|
    ensures i < |s| ==> s[i] == sep
    ensures forall j :: 0 <= j < i ==> s[j] != sep
  {
    if s == [] then 0
    else if s[0] == sep then 0
    else 1 + IndexOf(s[1..], sep)
  }

  /** s.Split(sep, StringSplitOptions.RemoveEmptyEntries). */
  function Split(s: string, sep: char): (parts: seq<string>)
    ensures forall k :: 0 <= k < |parts| ==> |parts[k]| > 0 && sep !in parts[k]
    decreases |s|
  {
    var i := IndexOf(s, sep);
    var rest := if i < |s| then Split(s[i + 1..], sep) else [];
    if i == 0 then rest else [s[..i]] + rest
  }

  /** The text "/p1/p2/.../pn": an absolute path made of the given segments. */
  function JoinPath(parts: seq<string>): string
  {
    if parts == [] then "" else "/" + parts[0] + JoinPath(parts[1..])
  }

  /** Splitting an absolute path built from non-empty, slash-free segments gives
      those segments back: Split is the inverse of JoinPath. */
  lemma {:induction false} SplitJoinPath(parts: seq<string>)
    requires forall k :: 0 <= k < |parts| ==> |parts[k]| > 0 && '/' !in parts[k]
    ensures Split(JoinPath(parts), '/') == parts
  {
    if parts != [] {
      var p := parts[0];
      var tail := JoinPath(parts[1..]);
      var s := "/" + p + tail;
      assert s == JoinPath(parts);
      // the leading slash yields an empty entry, which is removed
      assert IndexOf(s, '/') == 0;
      assert s[1..] == p + tail;
      // the first segment runs up to the next slash, or to the end
      IndexOfPrefix(p, tail, '/');
      SplitJoinPath(parts[1..]);
      var t := p + tail;
      var i := IndexOf(t, '/');
      assert i == |p|;
      assert t[..i] == p;
      if i < |t| {
        assert t[i + 1..] == tail[1..];
        SplitLeadingSeparator(tail, '/');
      } else {
        assert tail == [];
        assert parts[1..] == [];
      }
    }
  }

  /** A separator-free prefix is skipped entirely by IndexOf. */
  lemma {:induction false} IndexOfPrefix(p: string, t: string, sep: char)
    requires sep !in p
    requires t == [] || t[0] == sep
    ensures IndexOf(p + t, sep) == |p|
  {
    if p != [] {
      assert (p + t)[1..] == p[1..] + t;
      IndexOfPrefix(p[1..], t, sep);
    }
  }

  /** A leading separator contributes no entry. */
  lemma SplitLeadingSeparator(t: string, sep: char)
    requires t != [] && t[0] == sep
    ensures Split(t, sep) == Split(t[1..], sep)
  {
  }

  /** IndexOf over a concatenation finds the first separator of the left part, if any. */
  lemma {:induction false} IndexOfAppend(s: string, t: string, sep: char)
    ensures IndexOf(s, sep) < |s| ==> IndexOf(s + t, sep) == IndexOf(s, sep)
    ensures IndexOf(s, sep) == |s| ==> IndexOf(s + t, sep) == |s| + IndexOf(t, sep)
  {
    if s != [] && s[0] != sep {
      assert (s + t)[1..] == s[1..] + t;
      IndexOfAppend(s[1..], t, sep);
    } else if s == [] {
      assert s + t == t;
    }
  }

  /** A trailing separator contributes no entry. */
  lemma {:induction false} SplitTrailingSeparator(s: string, sep: char)
    ensures Split(s + [sep], sep) == Split(s, sep)
    decreases |s|
  {
    var i := IndexOf(s, sep);
    IndexOfAppend(s, [sep], sep);
    if i < |s| {
      assert (s + [sep])[i + 1..] == s[i + 1..] + [sep];
      assert (s + [sep])[..i] == s[..i];
      SplitTrailingSeparator(s[i + 1..], sep);
    } else {
      assert IndexOf([sep], sep) == 0;
      assert (s + [sep])[|s| + 1..] == [];
      assert (s + [sep])[..i] == s[..i];
    }
  }

  function Digit(d: nat): (c: char)
    requires d < 10
    ensures '0' <= c <= '9'
  {
    ('0' as int + d) as char
  }

  /** Decimal rendering of a natural number, most significant digit first. */
  function NatToString(n: nat): (s: string)
    ensures |s| > 0
    ensures forall i :: 0 <= i < |s| ==> '0' <= s[i] <= '9'
    decreases n
  {
    if n < 10 then [Digit(n)] else NatToString(n / 10) + [Digit(n % 10)]
  }

  /** Int32.ToString() in the invariant culture. */
  function IntToString(n: int): string
  {
    if n < 0 then "-" + NatToString(-n) else NatToString(n)
  }

  /** Enum.ToString() of a message type: the member name, or the number when
      the value names no member. */
  function TypeName(t: ConfigSyncMessageType): string
  {
    match t
    case Value => "Value"
    case KeyVaultReference => "KeyVaultReference"
    case Unrecognised(raw) => IntToString(raw)
  }

  /** Enum.ToString() of a sync action, in the same way. */
  function ActionName(a: SyncAction): string
  {
    match a
    case Upsert => "Upsert"
    case Delete => "Delete"
    case UnrecognisedAction(raw) => IntToString(raw)
  }
}
