/**
 The label transform of the row-detail view: `camelToTitle` turns a field
 identifier such as `pinCode` into the label `Pin Code`. It is three string
 steps applied in order:
   1. every ASCII capital `A`-`Z` is replaced by a space followed by itself
      (the global regular-expression replacement `/([A-Z])/g`);
   2. the first character, unless it is a line terminator, is upper-cased
      (the replacement `/^./`);
   3. leading and trailing whitespace is removed (`trim`).
 Characters are modelled over ASCII: upper-casing maps `a`-`z` to `A`-`Z`
 and leaves every other character alone.
 */
module TitleCase {

  predicate IsUpper(c: char) {
    'A' <= c <= 'Z'
  }

  predicate IsLower(c: char) {
    'a' <= c <= 'z'
  }

  /** The ASCII characters that `String.prototype.trim` strips. */
  predicate IsWhitespace(c: char) {
    c == ' ' || c == '\t' || c == '\n' || c == '\U{000B}' || c == '\U{000C}' || c == '\r'
  }

  /** The ASCII characters that the regular-expression dot does not match. */
  predicate IsLineTerminator(c: char) {
    c == '\n' || c == '\r'
  }

  predicate NoWhitespace(s: string) {
    forall i :: 0 <= i < |s| ==> !IsWhitespace(s[i])
  }

  /** ASCII upper-casing of one character. */
  function ToUpper(c: char): (u: char)
    ensures IsLower(c) ==> IsUpper(u) && u as int == c as int - 32
    ensures !IsLower(c) ==> u == c
    ensures IsWhitespace(u) <==> IsWhitespace(c)
  {
    if IsLower(c) then (c as int - 32) as char else c
  }

  /** Step 1: a space in front of every ASCII capital. */
  function SpaceCapitals(s: string): string
  {
    if |s| == 0 then []
    else (if IsUpper(s[0]) then [' ', s[0]] else [s[0]]) + SpaceCapitals(s[1..])
  }

  /** Step 2: upper-case the first character when the dot matches it. */
  function UpcaseFirst(s: string): (r: string)
    ensures |r| == |s|
    ensures |s| > 0 ==> r[1..] == s[1..] && r[0] == ToUpper(s[0])
  {
    if |s| > 0 && !IsLineTerminator(s[0]) then [ToUpper(s[0])] + s[1..] else s
  }

  /** Strips the longest whitespace prefix. */
  function TrimStart(s: string): (r: string)
    ensures |r| <= |s| && r == s[|s| - |r|..]
    ensures forall k :: 0 <= k < |s| - |r| ==> IsWhitespace(s[k])
    ensures |r| > 0 ==> !IsWhitespace(r[0])
  {
    if |s| > 0 && IsWhitespace(s[0]) then TrimStart(s[1..]) else s
  }

  /** Strips the longest whitespace suffix. */
  function TrimEnd(s: string): (r: string)
    ensures |r| <= |s| && r == s[..|r|]
    ensures forall k :: |r| <= k < |s| ==> IsWhitespace(s[k])
    ensures |r| > 0 ==> !IsWhitespace(r[|r| - 1])
  {
    if |s| > 0 && IsWhitespace(s[|s| - 1]) then TrimEnd(s[..|s| - 1]) else s
  }

  /** `r` is `s[i..i + |r|]` and everything around that slice is whitespace. */
  ghost predicate TrimmedAt(s: string, r: string, i: int) {
    && 0 <= i <= |s| - |r|
    && r == s[i..i + |r|]
    && (forall k :: 0 <= k < i ==> IsWhitespace(s[k]))
    && (forall k :: i + |r| <= k < |s| ==> IsWhitespace(s[k]))
  }

  /** Step 3: `trim`. The result is a slice of the input, everything cut
      off on either side is whitespace, and the result neither begins nor
      ends with whitespace, so the cut is maximal on both sides. */
  function Trim(s: string): (r: string)
    ensures exists i :: TrimmedAt(s, r, i)
    ensures |r| > 0 ==> !IsWhitespace(r[0]) && !IsWhitespace(r[|r| - 1])
  {
    var t := TrimStart(s);
    var r := TrimEnd(t);
    var i := |s| - |t|;
    assert TrimmedAt(s, r, i);
    r
  }

  /** `camelToTitle` (app/page.tsx). */
  function CamelToTitle(s: string): (r: string)
    ensures |r| > 0 ==> !IsWhitespace(r[0]) && !IsWhitespace(r[|r| - 1])
  {
    Trim(UpcaseFirst(SpaceCapitals(s)))
  }

  /** `s` with every space deleted. */
  function RemoveSpaces(s: string): string
  {
    if |s| == 0 then [] else (if s[0] == ' ' then [] else [s[0]]) + RemoveSpaces(s[1..])
  }

  /** Number of ASCII capitals in `s`. */
  function CountUpper(s: string): nat
  {
    if |s| == 0 then 0 else (if IsUpper(s[0]) then 1 else 0) + CountUpper(s[1..])
  }

  /** `s` with its first character upper-cased. */
  function CapitalizeFirst(s: string): string
  {
    if |s| == 0 then s else [ToUpper(s[0])] + s[1..]
  }

  // ---------------------------------------------------------------------
  // Step 1 on its own

  lemma {:induction false} RemoveSpacesAppend(a: string, b: string)
    ensures RemoveSpaces(a + b) == RemoveSpaces(a) + RemoveSpaces(b)
  {
    if |a| == 0 {
      assert a + b == b;
    } else {
      assert (a + b)[1..] == a[1..] + b;
      RemoveSpacesAppend(a[1..], b);
    }
  }

  lemma {:induction false} RemoveSpacesOfSpaceFree(s: string)
    requires NoWhitespace(s)
    ensures RemoveSpaces(s) == s
  {
    if |s| > 0 {
      RemoveSpacesOfSpaceFree(s[1..]);
    }
  }

  /** Step 1 only inserts spaces: with them deleted, the input comes back. */
  lemma {:induction false} SpaceCapitalsInsertsOnlySpaces(s: string)
    ensures RemoveSpaces(SpaceCapitals(s)) == RemoveSpaces(s)
  {
    if |s| > 0 {
      var b := if IsUpper(s[0]) then [' ', s[0]] else [s[0]];
      SpaceCapitalsInsertsOnlySpaces(s[1..]);
      RemoveSpacesAppend(b, SpaceCapitals(s[1..]));
      assert RemoveSpaces(b) == (if s[0] == ' ' then [] else [s[0]]);
    }
  }

  /** Step 1 adds exactly one character per capital. */
  lemma {:induction false} SpaceCapitalsLength(s: string)
    ensures |SpaceCapitals(s)| == |s| + CountUpper(s)
  {
    if |s| > 0 {
      SpaceCapitalsLength(s[1..]);
    }
  }

  /** On whitespace-free input, a character of step 1's output is a space
      exactly when the next one is a capital; the output starts with a space
      exactly when the input starts with a capital, never starts with a
      capital, and ends with the input's last character. */
  lemma {:induction false} SpaceCapitalsShape(s: string)
    requires NoWhitespace(s)
    ensures var t := SpaceCapitals(s);
      && (forall i :: 0 <= i < |t| - 1 ==> (t[i] == ' ' <==> IsUpper(t[i + 1])))
      && (|s| > 0 ==> |t| > 0 && !IsUpper(t[0]) && (t[0] == ' ' <==> IsUpper(s[0])))
      && (|s| > 0 ==> t[0] == ' ' || t[0] == s[0])
      && (|s| > 0 ==> t[|t| - 1] == s[|s| - 1])
      && (forall i :: 0 <= i < |t| ==> t[i] == ' ' || !IsWhitespace(t[i]))
  {
    if |s| > 0 {
      var b := if IsUpper(s[0]) then [' ', s[0]] else [s[0]];
      var rest := SpaceCapitals(s[1..]);
      var t := SpaceCapitals(s);
      assert t == b + rest;
      SpaceCapitalsShape(s[1..]);
      forall i | 0 <= i < |t| - 1
        ensures t[i] == ' ' <==> IsUpper(t[i + 1])
      {
        if i + 1 < |b| {
          assert t[i] == ' ' && t[i + 1] == s[0];
        } else if i + 1 == |b| {
          assert t[i] == s[0] && t[i + 1] == rest[0];
        } else {
          assert t[i] == rest[i - |b|] && t[i + 1] == rest[i - |b| + 1];
        }
      }
      if |s| == 1 {
        assert rest == [];
      } else {
        assert t[|t| - 1] == rest[|rest| - 1];
      }
      forall i | 0 <= i < |t|
        ensures t[i] == ' ' || !IsWhitespace(t[i])
      {
        if i >= |b| {
          assert t[i] == rest[i - |b|];
        }
      }
    }
  }

  // ---------------------------------------------------------------------
  // The whole transform on whitespace-free identifiers

  lemma TrimOfClean(s: string)
    requires |s| == 0 || (!IsWhitespace(s[0]) && !IsWhitespace(s[|s| - 1]))
    ensures Trim(s) == s
  {
  }

  /** On whitespace-free input the result is step 1's output with the
      first character upper-cased, or, when the input starts with a capital,
      with the leading space cut off. */
  lemma {:induction false} CamelToTitleUnfold(s: string)
    requires NoWhitespace(s)
    ensures var t := SpaceCapitals(s);
      CamelToTitle(s) == if |s| > 0 && IsUpper(s[0]) then t[1..] else CapitalizeFirst(t)
  {
    var t := SpaceCapitals(s);
    SpaceCapitalsShape(s);
    if |s| == 0 {
    } else if IsUpper(s[0]) {
      assert t == [' ', s[0]] + SpaceCapitals(s[1..]);
      assert UpcaseFirst(t) == t;
      assert TrimStart(t) == t[1..];
      TrimOfClean(t[1..]);
    } else {
      assert t[0] == s[0];
      var u := UpcaseFirst(t);
      assert u == CapitalizeFirst(t);
      TrimOfClean(u);
    }
  }

  /** Only spaces are inserted and nothing is dropped: deleting every space
      from the label gives the identifier with its first letter capitalised. */
  lemma CamelToTitleRemoveSpaces(s: string)
    requires NoWhitespace(s)
    ensures RemoveSpaces(CamelToTitle(s)) == CapitalizeFirst(s)
  {
    CamelToTitleUnfold(s);
    if |s| > 0 {
      SpaceCapitalsInsertsOnlySpaces(s[1..]);
      RemoveSpacesOfSpaceFree(s[1..]);
      if IsUpper(s[0]) {
        RemoveSpacesAfterCut(s);
      } else {
        RemoveSpacesAfterCapitalize(s);
      }
    }
  }

  lemma RemoveSpacesAfterCut(s: string)
    requires |s| > 0 && IsUpper(s[0])
    requires RemoveSpaces(SpaceCapitals(s[1..])) == s[1..]
    ensures RemoveSpaces(SpaceCapitals(s)[1..]) == CapitalizeFirst(s)
  {
    var rest := SpaceCapitals(s[1..]);
    assert SpaceCapitals(s)[1..] == [s[0]] + rest;
    RemoveSpacesAppend([s[0]], rest);
    assert s == [s[0]] + s[1..];
  }

  lemma RemoveSpacesAfterCapitalize(s: string)
    requires |s| > 0 && !IsUpper(s[0]) && !IsWhitespace(s[0])
    requires RemoveSpaces(SpaceCapitals(s[1..])) == s[1..]
    ensures RemoveSpaces(CapitalizeFirst(SpaceCapitals(s))) == CapitalizeFirst(s)
  {
    var rest := SpaceCapitals(s[1..]);
    assert SpaceCapitals(s) == [s[0]] + rest;
    assert CapitalizeFirst(SpaceCapitals(s)) == [ToUpper(s[0])] + rest;
    RemoveSpacesAppend([ToUpper(s[0])], rest);
  }

  /** The label is one character longer than the identifier per capital,
      except that a capital in first position gets no space. */
  lemma CamelToTitleLength(s: string)
    requires NoWhitespace(s)
    ensures |CamelToTitle(s)| == |s| + CountUpper(s) - (if |s| > 0 && IsUpper(s[0]) then 1 else 0)
  {
    CamelToTitleUnfold(s);
    SpaceCapitalsLength(s);
  }

  /** Word structure of the label: a space stands exactly in front of each
      capital after the first position, and the only whitespace in the label
      is the space. */
  lemma CamelToTitleWords(s: string)
    requires NoWhitespace(s)
    ensures var r := CamelToTitle(s);
      && (forall i :: 0 <= i < |r| - 1 ==> (r[i] == ' ' <==> IsUpper(r[i + 1])))
      && (forall i :: 0 <= i < |r| ==> r[i] == ' ' || !IsWhitespace(r[i]))
  {
    CamelToTitleUnfold(s);
    SpaceCapitalsShape(s);
    if |s| > 0 && IsUpper(s[0]) {
      WordsAfterCut(SpaceCapitals(s));
    } else if |s| > 0 {
      WordsAfterCapitalize(SpaceCapitals(s));
    }
  }

  ghost predicate Words(r: string) {
    && (forall i :: 0 <= i < |r| - 1 ==> (r[i] == ' ' <==> IsUpper(r[i + 1])))
    && (forall i :: 0 <= i < |r| ==> r[i] == ' ' || !IsWhitespace(r[i]))
  }

  lemma WordsAfterCut(t: string)
    requires |t| > 0 && Words(t)
    ensures Words(t[1..])
  {
    var r := t[1..];
    forall i | 0 <= i < |r| - 1
      ensures r[i] == ' ' <==> IsUpper(r[i + 1])
    {
      assert r[i] == t[i + 1] && r[i + 1] == t[i + 2];
    }
    forall i | 0 <= i < |r|
      ensures r[i] == ' ' || !IsWhitespace(r[i])
    {
      assert r[i] == t[i + 1];
    }
  }

  lemma WordsAfterCapitalize(t: string)
    requires |t| > 0 && Words(t) && !IsWhitespace(t[0]) && !IsUpper(t[0])
    ensures Words(CapitalizeFirst(t))
  {
    var r := CapitalizeFirst(t);
    forall i | 0 <= i < |r| - 1
      ensures r[i] == ' ' <==> IsUpper(r[i + 1])
    {
      assert r[i + 1] == t[i + 1];
      if i > 0 {
        assert r[i] == t[i];
      }
    }
    forall i | 0 <= i < |r|
      ensures r[i] == ' ' || !IsWhitespace(r[i])
    {
      if i > 0 {
        assert r[i] == t[i];
      }
    }
  }

  predicate AllLower(s: string) {
    forall i :: 0 <= i < |s| ==> IsLower(s[i])
  }

  lemma {:induction false} SpaceCapitalsAppend(a: string, b: string)
    ensures SpaceCapitals(a + b) == SpaceCapitals(a) + SpaceCapitals(b)
  {
    if |a| == 0 {
      assert a + b == b;
    } else {
      var blk := if IsUpper(a[0]) then [' ', a[0]] else [a[0]];
      assert (a + b)[0] == a[0];
      assert (a + b)[1..] == a[1..] + b;
      assert SpaceCapitals(a + b) == blk + SpaceCapitals(a[1..] + b);
      assert SpaceCapitals(a) == blk + SpaceCapitals(a[1..]);
      SpaceCapitalsAppend(a[1..], b);
    }
  }

  lemma {:induction false} SpaceCapitalsOfLower(s: string)
    requires AllLower(s)
    ensures SpaceCapitals(s) == s
  {
    if |s| > 0 {
      SpaceCapitalsOfLower(s[1..]);
    }
  }

  /** A field identifier made of lower-case letters only comes out as the
      same word with a capital first letter. */
  lemma TitleOfLowerWord(s: string)
    requires AllLower(s)
    ensures CamelToTitle(s) == CapitalizeFirst(s)
  {
    SpaceCapitalsOfLower(s);
    CamelToTitleUnfold(s);
  }

  /** The same, for a label given in full: a lower-case identifier `s`
      becomes `t` when `t` is `s` with the first letter capitalised. */
  lemma TitleOfLowerWordIs(s: string, t: string)
    requires |s| > 0 && AllLower(s)
    requires |t| == |s| && t[0] == ToUpper(s[0]) && t[1..] == s[1..]
    ensures CamelToTitle(s) == t
  {
    TitleOfLowerWord(s);
    var r := CamelToTitle(s);
    assert r == [r[0]] + r[1..];
    assert t == [t[0]] + t[1..];
  }

  lemma SpaceCapitalsOfTwoWords(s: string, k: int)
    requires 0 < k < |s| && AllLower(s[..k]) && IsUpper(s[k]) && AllLower(s[k + 1..])
    ensures SpaceCapitals(s) == s[..k] + [' ', s[k]] + s[k + 1..]
  {
    var a, c, b := s[..k], s[k], s[k + 1..];
    assert s == (a + [c]) + b;
    SpaceCapitalsAppend(a + [c], b);
    SpaceCapitalsAppend(a, [c]);
    SpaceCapitalsOfLower(a);
    SpaceCapitalsOfLower(b);
    assert SpaceCapitals([c]) == [' ', c];
  }

  /** A lower-case word, a capital at position `k` and another lower-case
      word come out as two words: the first capitalised, a space, then the
      capital and the rest. */
  lemma TitleOfTwoWords(s: string, k: int)
    requires 0 < k < |s| && AllLower(s[..k]) && IsUpper(s[k]) && AllLower(s[k + 1..])
    ensures CamelToTitle(s) == [ToUpper(s[0])] + s[1..k] + [' ', s[k]] + s[k + 1..]
  {
    SpaceCapitalsOfTwoWords(s, k);
    TwoWordsNoWhitespace(s, k);
    CamelToTitleUnfold(s);
    CapitalizeTwoWords(s, k);
  }

  lemma CapitalizeTwoWords(s: string, k: int)
    requires 0 < k < |s|
    ensures CapitalizeFirst(s[..k] + [' ', s[k]] + s[k + 1..])
            == [ToUpper(s[0])] + s[1..k] + [' ', s[k]] + s[k + 1..]
  {
    var t := s[..k] + [' ', s[k]] + s[k + 1..];
    assert t[0] == s[0];
    assert t[1..] == s[1..k] + [' ', s[k]] + s[k + 1..];
  }

  lemma TwoWordsNoWhitespace(s: string, k: int)
    requires 0 < k < |s| && AllLower(s[..k]) && IsUpper(s[k]) && AllLower(s[k + 1..])
    ensures NoWhitespace(s) && !IsUpper(s[0])
  {
    assert s[0] == s[..k][0];
    forall i | 0 <= i < |s|
      ensures !IsWhitespace(s[i])
    {
      if i < k {
        assert s[i] == s[..k][i];
      } else if i > k {
        assert s[i] == s[k + 1..][i - k - 1];
      }
    }
  }

  /** A label spelled out in full for a two-word identifier. */
  lemma TitleOfTwoWordsIs(s: string, k: int, t: string)
    requires 0 < k < |s| && AllLower(s[..k]) && IsUpper(s[k]) && AllLower(s[k + 1..])
    requires t == [ToUpper(s[0])] + s[1..k] + [' ', s[k]] + s[k + 1..]
    ensures CamelToTitle(s) == t
  {
    TitleOfTwoWords(s, k);
  }

  // The examples below take the identifier as a parameter, and go through
  // the general lemmas above, so that the verifier does not try to evaluate
  // the transform on a literal.

  lemma CamelToTitleExamplePinCode(s: string)
    requires s == "pinCode"
    ensures CamelToTitle(s) == "Pin Code"
  {
    TitleOfTwoWordsIs(s, 3, "Pin Code");
  }

  lemma CamelToTitleExampleCountry(s: string)
    requires s == "country"
    ensures CamelToTitle(s) == "Country"
  {
    TitleOfLowerWordIs(s, "Country");
  }

  lemma CamelToTitleExampleId(s: string)
    requires s == "id"
    ensures CamelToTitle(s) == "Id"
  {
    TitleOfLowerWordIs(s, "Id");
  }

  lemma CamelToTitleExampleName(s: string)
    requires s == "name"
    ensures CamelToTitle(s) == "Name"
  {
    TitleOfLowerWordIs(s, "Name");
  }

  lemma CamelToTitleExampleAddress(s: string)
    requires s == "address"
    ensures CamelToTitle(s) == "Address"
  {
    TitleOfLowerWordIs(s, "Address");
  }

  lemma CamelToTitleExampleCity(s: string)
    requires s == "city"
    ensures CamelToTitle(s) == "City"
  {
    TitleOfLowerWordIs(s, "City");
  }

  lemma CamelToTitleExampleState(s: string)
    requires s == "state"
    ensures CamelToTitle(s) == "State"
  {
    TitleOfLowerWordIs(s, "State");
  }
}
