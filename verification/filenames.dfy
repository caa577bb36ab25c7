/** Turning arbitrary titles into names the filesystem accepts: the
    forbidden characters are replaced, surrounding whitespace and dots are
    stripped, and the result is cut to 255 characters. The stripping helpers
    follow Python's `str.strip`, and are shared with the token parser. */
module MangaUtils {

  /** Python's `str.isspace` for a single character. */
  predicate IsSpace(c: char) {
    || c == ' '
    || ('\t' <= c <= '\r')
    || ('\U{1c}' <= c <= '\U{1f}')
    || c == '\U{85}' || c == '\U{a0}' || c == '\U{1680}'
    || ('\U{2000}' <= c <= '\U{200a}')
    || c == '\U{2028}' || c == '\U{2029}' || c == '\U{202f}' || c == '\U{205f}' || c == '\U{3000}'
  }

  predicate IsDot(c: char) {
    c == '.'
  }

  /** The characters the filename pattern rejects: `<>:"/\|?*`, newline,
      carriage return and tab. */
  predicate IsInvalid(c: char) {
    c in "<>:\"/\\|?*\n\r\t"
  }

  /** The substitution step: every rejected character becomes `replacement`
      (which may be longer or shorter than one character). */
  function ReplaceInvalid(s: string, replacement: string): (r: string)
    ensures forall i :: 0 <= i < |r| ==> !IsInvalid(r[i]) || r[i] in replacement
    ensures (forall i :: 0 <= i < |s| ==> !IsInvalid(s[i])) ==> r == s
  {
    if s == [] then []
    else (if IsInvalid(s[0]) then replacement else [s[0]]) + ReplaceInvalid(s[1..], replacement)
  }

  /** With a one-character replacement the substitution is position-wise:
      the length is kept, rejected characters become the replacement and
      every other character stays where it was. */
  lemma {:induction false} ReplaceOneForOne(s: string, c: char)
    ensures |ReplaceInvalid(s, [c])| == |s|
    ensures forall i :: 0 <= i < |s| ==> ReplaceInvalid(s, [c])[i] == if IsInvalid(s[i]) then c else s[i]
  {
    if s != [] {
      ReplaceOneForOne(s[1..], c);
      var rest := ReplaceInvalid(s[1..], [c]);
      assert ReplaceInvalid(s, [c]) == [if IsInvalid(s[0]) then c else s[0]] + rest;
    }
  }

  /** The substitution works piece by piece. */
  lemma {:induction false} ReplaceInvalidAppend(a: string, b: string, replacement: string)
    ensures ReplaceInvalid(a + b, replacement) == ReplaceInvalid(a, replacement) + ReplaceInvalid(b, replacement)
  {
    if a != [] {
      assert (a + b)[0] == a[0];
      assert (a + b)[1..] == a[1..] + b;
      ReplaceInvalidAppend(a[1..], b, replacement);
    } else {
      assert a + b == b;
    }
  }

  /** How many leading characters satisfy `p`. */
  function LeadCount(s: string, p: char -> bool): (n: nat)
    ensures n <= |s|
    ensures forall i :: 0 <= i < n ==> p(s[i])
    ensures n < |s| ==> !p(s[n])
  {
    if s == [] || !p(s[0]) then 0 else 1 + LeadCount(s[1..], p)
  }

  /** How many trailing characters satisfy `p`. */
  function TrailCount(s: string, p: char -> bool): (n: nat)
    ensures n <= |s|
    ensures forall i :: |s| - n <= i < |s| ==> p(s[i])
    ensures n < |s| ==> !p(s[|s| - n - 1])
  {
    if s == [] || !p(s[|s| - 1]) then 0 else 1 + TrailCount(s[..|s| - 1], p)
  }

  /** `s.strip(chars)`: the longest leading run and then the longest trailing
      run of characters satisfying `p` are removed. The result is the
      contiguous slice of `s` that starts after the leading run, everything
      after it satisfies `p`, and it neither starts nor ends with such a
      character. */
  function Strip(s: string, p: char -> bool): (r: string)
    ensures |r| <= |s| - LeadCount(s, p)
    ensures r == s[LeadCount(s, p)..LeadCount(s, p) + |r|]
    ensures forall k :: LeadCount(s, p) + |r| <= k < |s| ==> p(s[k])
    ensures r == [] || (!p(r[0]) && !p(r[|r| - 1]))
  {
    var rest := s[LeadCount(s, p)..];
    rest[..|rest| - TrailCount(rest, p)]
  }

  /** Stripping is idempotent. */
  lemma StripIdempotent(s: string, p: char -> bool)
    ensures Strip(Strip(s, p), p) == Strip(s, p)
  {
    var r := Strip(s, p);
    assert LeadCount(r, p) == 0;
    assert TrailCount(r, p) == 0;
  }

  /** A string whose last character is not stripped loses only its
      leading run, which ends before any character that is not stripped. */
  lemma StripKeepsEnd(s: string, p: char -> bool, k: nat)
    requires k < |s| && !p(s[k]) && !p(s[|s| - 1])
    ensures Strip(s, p) == s[LeadCount(s, p)..] && LeadCount(s, p) <= k
  {
    var r := Strip(s, p);
    var n := LeadCount(s, p);
    if n + |r| < |s| {
      assert false;
    }
  }

  /** The default replacement is itself accepted, so a name made safe with
      it holds no invalid character. */
  lemma UnderscoreIsValid(s: string)
    ensures var r := MakeValidFilename(s, "_");
            forall i :: 0 <= i < |r| ==> !IsInvalid(r[i])
  {
    assert forall c :: c in "_" ==> !IsInvalid(c);
  }

  const MAX_FILENAME_LENGTH: nat := 255

  /** `make_valid_filename(s, replacement)`. */
  function MakeValidFilename(s: string, replacement: string): (r: string)
    ensures |r| <= MAX_FILENAME_LENGTH
    ensures var stripped := Strip(Strip(ReplaceInvalid(s, replacement), IsSpace), IsDot);
            && r <= stripped
            && (|stripped| <= MAX_FILENAME_LENGTH ==> r == stripped)
    ensures r == [] || r[0] != '.'
    ensures (forall c :: c in replacement ==> !IsInvalid(c)) ==> forall i :: 0 <= i < |r| ==> !IsInvalid(r[i])
  {
    var replaced := ReplaceInvalid(s, replacement);
    var spaced := Strip(replaced, IsSpace);
    var stripped := Strip(spaced, IsDot);
    StripKeepsClean(replaced, IsSpace, replacement);
    StripKeepsClean(spaced, IsDot, replacement);
    if |stripped| <= MAX_FILENAME_LENGTH then stripped else stripped[..MAX_FILENAME_LENGTH]
  }

  /** Stripping only removes characters, so every character left is one
      the substitution could have produced. */
  lemma StripKeepsClean(s: string, p: char -> bool, replacement: string)
    requires forall i :: 0 <= i < |s| ==> !IsInvalid(s[i]) || s[i] in replacement
    ensures var r := Strip(s, p);
            forall i :: 0 <= i < |r| ==> !IsInvalid(r[i]) || r[i] in replacement
  {
    var r := Strip(s, p);
    var n := LeadCount(s, p);
    forall i | 0 <= i < |r|
      ensures !IsInvalid(r[i]) || r[i] in replacement
    {
      assert r[i] == s[n + i];
    }
  }
}
