/** The two string helpers the status check calls: the project's own
    `StringsValidation.removeAllSpaces` and Apache Commons'
    `StringUtils.isBlank`. */
module StringsValidation {
  import opened Wrappers
  import opened JavaLang

  /** The characters of the regular-expression class `\s`: space, tab, line
      feed, vertical tab, form feed and carriage return. */
  predicate IsRegexSpace(c: char) {
    c == ' ' || ('\t' <= c <= '\r')
  }

  /** Every `\s` character is whitespace in the sense of `Character.isWhitespace`. */
  lemma RegexSpaceIsWhitespace(c: char)
    requires IsRegexSpace(c)
    ensures IsWhitespace(c)
  {
  }

  /** `removeAllSpaces`: the text with every `\s` character deleted and the
      others kept in order. */
  function RemoveAllSpaces(s: string): (r: string)
    ensures |r| <= |s|
    ensures forall k :: 0 <= k < |r| ==> !IsRegexSpace(r[k])
    ensures multiset(r) <= multiset(s)
  {
    if s == [] then []
    else
      assert s == [s[0]] + s[1..];
      if IsRegexSpace(s[0]) then RemoveAllSpaces(s[1..]) else [s[0]] + RemoveAllSpaces(s[1..])
  }

  lemma {:induction false} RemoveAllSpacesAppend(a: string, b: string)
    ensures RemoveAllSpaces(a + b) == RemoveAllSpaces(a) + RemoveAllSpaces(b)
  {
    if a == [] {
      assert a + b == b;
    } else {
      assert (a + b)[0] == a[0];
      assert (a + b)[1..] == a[1..] + b;
      RemoveAllSpacesAppend(a[1..], b);
    }
  }

  /** Text without `\s` characters is left as it is. */
  lemma {:induction false} RemoveAllSpacesFixed(s: string)
    requires forall k :: 0 <= k < |s| ==> !IsRegexSpace(s[k])
    ensures RemoveAllSpaces(s) == s
  {
    if s != [] {
      RemoveAllSpacesFixed(s[1..]);
    }
  }

  /** Every character of the text is whitespace (vacuously so for ""). */
  predicate AllWhitespace(s: string) {
    forall k :: 0 <= k < |s| ==> IsWhitespace(s[k])
  }

  lemma AllWhitespaceAppend(a: string, b: string)
    ensures AllWhitespace(a + b) <==> AllWhitespace(a) && AllWhitespace(b)
  {
    if AllWhitespace(a + b) {
      assert forall k :: 0 <= k < |a| ==> (a + b)[k] == a[k];
      assert forall k :: 0 <= k < |b| ==> (a + b)[|a| + k] == b[k];
    }
  }

  /** `StringUtils.isBlank`: null, empty, or whitespace only. */
  predicate IsBlank(s: Option<string>): (b: bool)
    ensures s.None? || s.value == [] ==> b
    ensures b && s.Some? ==> forall k :: 0 <= k < |s.value| ==> IsWhitespace(s.value[k])
    ensures s.Some? && (forall k :: 0 <= k < |s.value| ==> IsWhitespace(s.value[k])) ==> b
  {
    s.None? || AllWhitespace(s.value)
  }
}
