/** Small helpers shared across the application: the ASCII sanitiser used
    for identifiers built from user text, and the retry loop that draws API
    tokens until one is unused. */
module CoreUtils {
  import opened PyValues

  /** The characters the final pattern `[^A-Za-z0-9_-]` lets through. */
  predicate IsWordChar(c: char) {
    ('A' <= c <= 'Z') || ('a' <= c <= 'z') || ('0' <= c <= '9') || c == '_' || c == '-'
  }

  /** The reference meaning of the sanitiser on one character. */
  function SanitizedChar(c: char): (d: char)
    ensures IsWordChar(d)
    ensures IsWordChar(c) ==> d == c
    ensures !IsWordChar(c) ==> d == '_'
  {
    if IsWordChar(c) then c else '_'
  }

  /** Stage 1: `s.replace(' ', '_')`. */
  function ReplaceSpaces(s: string): (r: string)
    ensures |r| == |s|
  {
    if s == [] then [] else [if s[0] == ' ' then '_' else s[0]] + ReplaceSpaces(s[1..])
  }

  /** Stage 2: every character with `ord(c) >= 128` becomes `_`. */
  function ReplaceNonAscii(s: string): (r: string)
    ensures |r| == |s|
  {
    if s == [] then [] else [if s[0] as int < 128 then s[0] else '_'] + ReplaceNonAscii(s[1..])
  }

  /** Stage 3: `re.sub(r'[^A-Za-z0-9_-]', '_', s)`. */
  function ReplaceNonWord(s: string): (r: string)
    ensures |r| == |s|
  {
    if s == [] then [] else [if IsWordChar(s[0]) then s[0] else '_'] + ReplaceNonWord(s[1..])
  }

  /** `sanitize_ascii`: the three stages in order. */
  function SanitizeAscii(s: string): (r: string)
    ensures |r| == |s|
  {
    ReplaceNonWord(ReplaceNonAscii(ReplaceSpaces(s)))
  }

  /** The three stages together replace each character by its sanitised
      form, position by position: word characters stay, all others
      (spaces and non-ASCII included) become `_`. */
  lemma {:induction false} SanitizeAsciiPointwise(s: string)
    ensures forall i :: 0 <= i < |s| ==> SanitizeAscii(s)[i] == SanitizedChar(s[i])
  {
    if s != [] {
      SanitizeAsciiPointwise(s[1..]);
      assert ReplaceSpaces(s) == [if s[0] == ' ' then '_' else s[0]] + ReplaceSpaces(s[1..]);
      var a := ReplaceSpaces(s);
      assert a[1..] == ReplaceSpaces(s[1..]);
      assert ReplaceNonAscii(a) == [if a[0] as int < 128 then a[0] else '_'] + ReplaceNonAscii(a[1..]);
      var b := ReplaceNonAscii(a);
      assert b[1..] == ReplaceNonAscii(ReplaceSpaces(s[1..]));
      assert ReplaceNonWord(b) == [if IsWordChar(b[0]) then b[0] else '_'] + ReplaceNonWord(b[1..]);
      forall i | 0 <= i < |s|
        ensures SanitizeAscii(s)[i] == SanitizedChar(s[i])
      {
        if i > 0 {
          assert SanitizeAscii(s)[i] == SanitizeAscii(s[1..])[i - 1];
        }
      }
    }
  }

  /** Every output character is one of `[A-Za-z0-9_-]`. */
  lemma SanitizeAsciiAlphabet(s: string)
    ensures forall i :: 0 <= i < |SanitizeAscii(s)| ==> IsWordChar(SanitizeAscii(s)[i])
  {
    SanitizeAsciiPointwise(s);
  }

  /** Sanitising twice is sanitising once. */
  lemma SanitizeAsciiIdempotent(s: string)
    ensures SanitizeAscii(SanitizeAscii(s)) == SanitizeAscii(s)
  {
    var r := SanitizeAscii(s);
    SanitizeAsciiPointwise(s);
    SanitizeAsciiPointwise(r);
  }

  /** `generate_unique_token`: draws random tokens until one is not held by
      any stored record. The random draws are given as `draws`; when every
      draw is already taken the result is None (the source keeps drawing). */
  method GenerateUniqueToken(taken: set<string>, draws: seq<string>) returns (r: Option<string>)
    ensures r.Some? ==> r.value !in taken
    ensures r.Some? ==> exists k :: 0 <= k < |draws| && draws[k] == r.value && forall j :: 0 <= j < k ==> draws[j] in taken
    ensures r.None? <==> forall j :: 0 <= j < |draws| ==> draws[j] in taken
  {
    var i := 0;
    while i < |draws|
      invariant 0 <= i <= |draws|
      invariant forall j :: 0 <= j < i ==> draws[j] in taken
    {
      var token := draws[i];
      if token !in taken {
        return Some(token);
      }
      i := i + 1;
    }
    return None;
  }
}
