/** Rust's `str::trim`: strip leading and trailing characters that have the
    Unicode White_Space property. */
module Text {

  /** The characters Rust's `char::is_whitespace` accepts. */
  predicate IsWhitespace(c: char)
  {
    || ('\t' <= c <= '\r')
    || c == ' '
    || c == '\U{0085}'
    || c == '\U{00A0}'
    || c == '\U{1680}'
    || ('\U{2000}' <= c <= '\U{200A}')
    || c == '\U{2028}'
    || c == '\U{2029}'
    || c == '\U{202F}'
    || c == '\U{205F}'
    || c == '\U{3000}'
  }

  /** No whitespace at either end. */
  predicate Clean(s: string)
  {
    s == [] || (!IsWhitespace(s[0]) && !IsWhitespace(s[|s| - 1]))
  }

  predicate AllWhitespace(s: string)
  {
    forall i :: 0 <= i < |s| ==> IsWhitespace(s[i])
  }

  /** Drops the whitespace prefix: what remains is a suffix of `s` that does
      not start with whitespace, and everything dropped was whitespace. */
  function TrimStart(s: string): (t: string)
    ensures |t| <= |s| && t == s[|s| - |t|..]
    ensures t == [] || !IsWhitespace(t[0])
    ensures forall i :: 0 <= i < |s| - |t| ==> IsWhitespace(s[i])
  {
    if s != [] && IsWhitespace(s[0]) then TrimStart(s[1..]) else s
  }

  /** Drops the whitespace suffix: what remains is a prefix of `s` that does
      not end with whitespace, and everything dropped was whitespace. */
  function TrimEnd(s: string): (t: string)
    ensures |t| <= |s| && t == s[..|t|]
    ensures t == [] || !IsWhitespace(t[|t| - 1])
    ensures forall i :: |t| <= i < |s| ==> IsWhitespace(s[i])
  {
    if s != [] && IsWhitespace(s[|s| - 1]) then TrimEnd(s[..|s| - 1]) else s
  }

  /** The trimmed string is clean, and it is empty exactly when `s` is all
      whitespace. */
  function Trim(s: string): (t: string)
    ensures |t| <= |s|
    ensures Clean(t)
    ensures t == [] <==> AllWhitespace(s)
  {
    BlankTrimsToEmpty(s);
    TrimEnd(TrimStart(s))
  }

  lemma BlankTrimsToEmpty(s: string)
    ensures TrimEnd(TrimStart(s)) == [] <==> AllWhitespace(s)
  {
    var u := TrimStart(s);
    var k := |s| - |u|;
    if TrimEnd(u) != [] {
      assert u != [] && u[0] == s[k];
    }
  }

  /** A clean string is its own trim. */
  lemma TrimClean(s: string)
    requires Clean(s)
    ensures Trim(s) == s
  {
    assert TrimStart(s) == s;
    assert TrimEnd(s) == s;
  }

  /** Trimming twice is trimming once. */
  lemma TrimIdempotent(s: string)
    ensures Trim(Trim(s)) == Trim(s)
  {
    TrimClean(Trim(s));
  }

  /** Whitespace before a clean string is all that trimming removes. */
  lemma TrimPadded(pad: string, s: string)
    requires AllWhitespace(pad) && Clean(s)
    ensures Trim(pad + s) == s
  {
    TrimStartSkips(pad, s);
    TrimClean(s);
  }

  /** A whitespace prefix does not change what `TrimStart` returns. */
  lemma {:induction false} TrimStartSkips(w: string, s: string)
    requires AllWhitespace(w)
    ensures TrimStart(w + s) == TrimStart(s)
  {
    if w == [] {
      assert w + s == s;
    } else {
      var c := w[0];
      assert IsWhitespace(c);
      var rest := w[1..];
      assert AllWhitespace(rest) by {
        forall i | 0 <= i < |rest| ensures IsWhitespace(rest[i]) { assert rest[i] == w[i + 1]; }
      }
      assert w + s == [c] + (rest + s);
      WhitespaceHead(c, rest + s);
      TrimStartSkips(rest, s);
    }
  }

  lemma WhitespaceHead(c: char, s: string)
    requires IsWhitespace(c)
    ensures TrimStart([c] + s) == TrimStart(s)
  {
    assert ([c] + s)[1..] == s;
  }
}
