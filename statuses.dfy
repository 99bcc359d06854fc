/** The `OrderStatus` enumeration and the normal form under which free text is
    looked up in it. The enumeration's constants are not part of this model:
    a vocabulary is the set of their names. */
module Statuses {
  import opened Wrappers
  import opened JavaLang
  import opened StringsValidation

  /** One constant of `OrderStatus`, identified by its name. */
  datatype OrderStatus = OrderStatus(name: string)

  /** `OrderStatus.valueOf`: the constant with exactly this name, if any. */
  function ValueOf(vocabulary: set<string>, name: string): (r: Option<OrderStatus>)
    ensures r.Some? <==> name in vocabulary
    ensures r.Some? ==> r.value.name == name
  {
    if name in vocabulary then Some(OrderStatus(name)) else None
  }

  /** The text the status check looks up: upper-cased, then stripped of every
      `\s` character. */
  function Normalize(s: string): (r: string)
    ensures forall k :: 0 <= k < |r| ==> !IsRegexSpace(r[k])
  {
    RemoveAllSpaces(ToUpperCase(s))
  }

  /** Normalisation works character by character. */
  lemma NormalizeAppend(a: string, b: string)
    ensures Normalize(a + b) == Normalize(a) + Normalize(b)
  {
    ToUpperCaseAppend(a, b);
    RemoveAllSpacesAppend(ToUpperCase(a), ToUpperCase(b));
  }

  lemma NormalizeFirst(s: string)
    requires s != []
    ensures Normalize(s) == Normalize([s[0]]) + Normalize(s[1..])
  {
    assert s == [s[0]] + s[1..];
    NormalizeAppend([s[0]], s[1..]);
  }

  /** One character normalises to nothing when it is a `\s` character, and to
      its upper case otherwise. */
  lemma NormalizeChar(c: char)
    ensures IsRegexSpace(c) ==> Normalize([c]) == []
    ensures !IsRegexSpace(c) ==> Normalize([c]) == UpperCaseOf(c)
  {
    var u := UpperCaseOf(c);
    ToUpperCaseChar(c);
    if IsRegexSpace(c) {
      RegexSpaceIsWhitespace(c);
      assert u == [c];
      assert RemoveAllSpaces([c]) == RemoveAllSpaces([]);
    } else {
      NoRegexSpaceInUpperCase(c);
      RemoveAllSpacesFixed(u);
    }
  }

  lemma NoRegexSpaceInUpperCase(c: char)
    requires !IsRegexSpace(c)
    ensures forall k :: 0 <= k < |UpperCaseOf(c)| ==> !IsRegexSpace(UpperCaseOf(c)[k])
  {
    var u := UpperCaseOf(c);
    if IsWhitespace(c) {
      assert u == [c];
    } else {
      forall k | 0 <= k < |u| ensures !IsRegexSpace(u[k]) {
        assert !IsWhitespace(u[k]);
      }
    }
  }

  /** Removing spaces and upper-casing commute: stripping first and
      upper-casing second gives the same normal form. */
  lemma {:induction false} SpaceRemovalCommutesWithUpperCase(s: string)
    ensures RemoveAllSpaces(ToUpperCase(s)) == ToUpperCase(RemoveAllSpaces(s))
  {
    if s != [] {
      NormalizeFirst(s);
      NormalizeChar(s[0]);
      SpaceRemovalCommutesWithUpperCase(s[1..]);
      var rest := RemoveAllSpaces(s[1..]);
      if IsRegexSpace(s[0]) {
        assert RemoveAllSpaces(s) == rest;
      } else {
        assert RemoveAllSpaces(s) == [s[0]] + rest;
        ToUpperCaseAppend([s[0]], rest);
        ToUpperCaseChar(s[0]);
      }
    }
  }

  /** Normalising twice is normalising once. */
  lemma {:induction false} NormalizeIdempotent(s: string)
    ensures Normalize(Normalize(s)) == Normalize(s)
  {
    if s != [] {
      NormalizeFirst(s);
      NormalizeChar(s[0]);
      var head := Normalize([s[0]]);
      if head != [] {
        UpperCaseOfStable(s[0]);
        ToUpperCaseFixed(head);
        RemoveAllSpacesFixed(head);
        assert Normalize(head) == head;
      }
      NormalizeIdempotent(s[1..]);
      NormalizeAppend(head, Normalize(s[1..]));
    }
  }

  /** Text is whitespace only exactly when its normal form is: normalising
      neither hides nor reveals content. */
  lemma {:induction false} NormalizePreservesBlankness(s: string)
    ensures AllWhitespace(s) <==> AllWhitespace(Normalize(s))
  {
    if s != [] {
      NormalizeFirst(s);
      NormalizeCharBlankness(s[0]);
      NormalizePreservesBlankness(s[1..]);
      AllWhitespaceAppend(Normalize([s[0]]), Normalize(s[1..]));
      AllWhitespaceAppend([s[0]], s[1..]);
      assert s == [s[0]] + s[1..];
    }
  }

  lemma NormalizeCharBlankness(c: char)
    ensures AllWhitespace(Normalize([c])) <==> IsWhitespace(c)
  {
    NormalizeChar(c);
    if IsRegexSpace(c) {
      RegexSpaceIsWhitespace(c);
    } else {
      var u := UpperCaseOf(c);
      assert IsWhitespace(u[0]) <==> IsWhitespace(c);
    }
  }

  /** Upper-casing beforehand does not change the normal form. */
  lemma NormalizeIgnoresUpperCasing(s: string)
    ensures Normalize(ToUpperCase(s)) == Normalize(s)
  {
    ToUpperCaseIdempotent(s);
  }

  /** Inserting a `\s` character anywhere does not change the normal form. */
  lemma NormalizeIgnoresSpace(a: string, c: char, b: string)
    requires IsRegexSpace(c)
    ensures Normalize(a + [c] + b) == Normalize(a + b)
  {
    NormalizeAppend(a + [c], b);
    NormalizeAppend(a, [c]);
    NormalizeChar(c);
    NormalizeAppend(a, b);
  }

  /** Changing one ASCII letter from lower to upper case does not change the
      normal form. */
  lemma NormalizeIgnoresAsciiCase(a: string, c: char, b: string)
    requires 'a' <= c <= 'z'
    ensures Normalize(a + [c] + b) == Normalize(a + [(c as int - 32) as char] + b)
  {
    var C := (c as int - 32) as char;
    NormalizeAppend(a + [c], b);
    NormalizeAppend(a, [c]);
    NormalizeAppend(a + [C], b);
    NormalizeAppend(a, [C]);
    NormalizeChar(c);
    NormalizeChar(C);
    UpperCaseOfAsciiLetter(c);
  }

  /** A reference definition of the normal form for ASCII text: drop the
      `\s` characters and raise the letters a..z to A..Z. */
  function AsciiNormalForm(s: string): string {
    if s == [] then []
    else if IsRegexSpace(s[0]) then AsciiNormalForm(s[1..])
    else if 'a' <= s[0] <= 'z' then [(s[0] as int - 32) as char] + AsciiNormalForm(s[1..])
    else [s[0]] + AsciiNormalForm(s[1..])
  }

  /** On ASCII text the normal form agrees with the reference definition. */
  lemma {:induction false} NormalizeAscii(s: string)
    requires forall k :: 0 <= k < |s| ==> s[k] < '\U{80}'
    ensures Normalize(s) == AsciiNormalForm(s)
  {
    if s != [] {
      NormalizeFirst(s);
      NormalizeChar(s[0]);
      NormalizeAscii(s[1..]);
      if 'a' <= s[0] <= 'z' {
        UpperCaseOfAsciiLetter(s[0]);
      } else {
        UpperCaseOfAsciiOther(s[0]);
      }
    }
  }

  lemma NormalizeAsciiTo(s: string, expected: string)
    requires forall k :: 0 <= k < |s| ==> s[k] < '\U{80}'
    requires AsciiNormalForm(s) == expected
    ensures Normalize(s) == expected
  {
    NormalizeAscii(s);
  }
}
