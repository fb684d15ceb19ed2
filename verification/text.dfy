/** The string primitives the server relies on: toLowerCase/toUpperCase
    (restricted to ASCII letters), String.prototype.trim, and
    String.prototype.includes. */
module Text {

  function LowerChar(c: char): char
  {
    if 'A' <= c <= 'Z' then (c as int + 32) as char else c
  }

  function UpperChar(c: char): char
  {
    if 'a' <= c <= 'z' then (c as int - 32) as char else c
  }

  /** toLowerCase on ASCII letters; every other character is kept. */
  function Lower(s: string): (r: string)
    ensures |r| == |s|
    ensures forall i :: 0 <= i < |s| ==> r[i] == LowerChar(s[i])
    ensures NoUpper(r)
  {
    seq(|s|, i requires 0 <= i < |s| => LowerChar(s[i]))
  }

  /** toUpperCase on ASCII letters; every other character is kept. */
  function Upper(s: string): (r: string)
    ensures |r| == |s|
    ensures forall i :: 0 <= i < |s| ==> r[i] == UpperChar(s[i])
    ensures NoLower(r)
  {
    seq(|s|, i requires 0 <= i < |s| => UpperChar(s[i]))
  }

  /** The characters String.prototype.trim removes: the ECMAScript
      WhiteSpace and LineTerminator sets. */
  predicate IsSpace(c: char)
  {
    || c == '\t' || c == '\n' || c == '\U{000B}' || c == '\U{000C}' || c == '\r'
    || c == ' ' || c == '\U{00A0}' || c == '\U{1680}'
    || ('\U{2000}' <= c <= '\U{200A}')
    || c == '\U{2028}' || c == '\U{2029}' || c == '\U{202F}' || c == '\U{205F}'
    || c == '\U{3000}' || c == '\U{FEFF}'
  }

  predicate AllSpace(s: string)
  {
    forall i :: 0 <= i < |s| ==> IsSpace(s[i])
  }

  /** The number of leading white-space characters of s. */
  function LeadingSpaces(s: string): (n: nat)
    ensures n <= |s|
    ensures forall k :: 0 <= k < n ==> IsSpace(s[k])
    ensures n < |s| ==> !IsSpace(s[n])
    decreases |s|
  {
    if |s| > 0 && IsSpace(s[0]) then
      var m := LeadingSpaces(s[1..]);
      assert forall k :: 1 <= k < |s| ==> s[k] == s[1..][k - 1];
      1 + m
    else 0
  }

  /** Where s ends once its trailing white space is cut off. */
  function ContentEnd(s: string): (m: nat)
    ensures m <= |s|
    ensures forall k :: m <= k < |s| ==> IsSpace(s[k])
    ensures m > 0 ==> !IsSpace(s[m - 1])
    decreases |s|
  {
    if |s| > 0 && IsSpace(s[|s| - 1]) then
      var m := ContentEnd(s[..|s| - 1]);
      assert forall k :: 0 <= k < |s| - 1 ==> s[k] == s[..|s| - 1][k];
      m
    else |s|
  }

  /** String.prototype.trim: the longest infix without surrounding spaces,
      obtained by cutting only spaces off both ends. */
  function Trim(s: string): (r: string)
    ensures exists i, j :: 0 <= i <= j <= |s| && r == s[i..j] && AllSpace(s[..i]) && AllSpace(s[j..])
    ensures r == [] || (!IsSpace(r[0]) && !IsSpace(r[|r| - 1]))
  {
    var i, j := LeadingSpaces(s), ContentEnd(s);
    if i < j then
      assert AllSpace(s[..i]) && AllSpace(s[j..]);
      s[i..j]
    else
      assert AllSpace(s[..i]) && AllSpace(s[i..]) && s[i..i] == [];
      []
  }

  /** needle occurs in hay starting at offset i. */
  ghost predicate OccursAt(hay: string, needle: string, i: int)
  {
    0 <= i && i + |needle| <= |hay| && hay[i..i + |needle|] == needle
  }

  /** String.prototype.includes. */
  function Includes(hay: string, needle: string): (b: bool)
    ensures b <==> exists i :: OccursAt(hay, needle, i)
    decreases |hay|
  {
    if |needle| > |hay| then false
    else if hay[..|needle|] == needle then
      assert OccursAt(hay, needle, 0);
      true
    else
      var rest := Includes(hay[1..], needle);
      forall i ensures OccursAt(hay[1..], needle, i) <==> OccursAt(hay, needle, i + 1) {
        if 0 <= i && i + |needle| <= |hay[1..]| {
          assert hay[1..][i..i + |needle|] == hay[i + 1..i + 1 + |needle|];
        }
      }
      assert !OccursAt(hay, needle, 0);
      assert (exists i :: OccursAt(hay, needle, i)) ==> exists i :: OccursAt(hay[1..], needle, i) by {
        if exists i :: OccursAt(hay, needle, i) {
          var i :| OccursAt(hay, needle, i);
          assert OccursAt(hay[1..], needle, i - 1);
        }
      }
      rest
  }

  /** The shape of a stored coupon code: no lower-case ASCII letter and
      no space at either end. */
  predicate IsNormalized(s: string)
  {
    && NoLower(s)
    && (s == [] || (!IsSpace(s[0]) && !IsSpace(s[|s| - 1])))
  }

  predicate NoLower(s: string)
  {
    forall i :: 0 <= i < |s| ==> !('a' <= s[i] <= 'z')
  }

  predicate NoUpper(s: string)
  {
    forall i :: 0 <= i < |s| ==> !('A' <= s[i] <= 'Z')
  }

  /** Trimming only removes characters, so it adds no lower-case letter. */
  lemma TrimNoLower(s: string)
    requires NoLower(s)
    ensures NoLower(Trim(s))
  {
    var i, j := LeadingSpaces(s), ContentEnd(s);
    if i < j {
      assert forall k :: 0 <= k < j - i ==> s[i..j][k] == s[i + k];
    }
  }

  /** How a coupon code is stored: the schema's uppercase and trim setters. */
  function Normalize(s: string): (r: string)
    ensures IsNormalized(r)
  {
    var u := Upper(s);
    TrimNoLower(u);
    Trim(u)
  }

  lemma SpaceUpper(c: char)
    ensures IsSpace(UpperChar(c)) == IsSpace(c)
  {
    if 'a' <= c <= 'z' {
      assert 'A' <= UpperChar(c) <= 'Z';
    }
  }

  /** Upper-casing keeps every character's white-space class, so it keeps
      both cut points of trim. */
  lemma CutPointsUpper(s: string)
    ensures LeadingSpaces(Upper(s)) == LeadingSpaces(s)
    ensures ContentEnd(Upper(s)) == ContentEnd(s)
  {
    var u := Upper(s);
    forall k | 0 <= k < |s| ensures IsSpace(u[k]) == IsSpace(s[k]) {
      SpaceUpper(s[k]);
    }
  }

  /** A code already in stored shape is left as it is by the setters. */
  lemma NormalizedFixpoint(s: string)
    requires IsNormalized(s)
    ensures Normalize(s) == s
  {
    assert Upper(s) == s;
    assert LeadingSpaces(s) == 0;
    assert ContentEnd(s) == |s|;
  }

  lemma UpperSlice(s: string, i: int, j: int)
    requires 0 <= i <= j <= |s|
    ensures Upper(s)[i..j] == Upper(s[i..j])
  {
    var t := s[i..j];
    assert forall k :: 0 <= k < |t| ==> t[k] == s[i + k];
  }

  /** The uppercase and trim setters commute, so the order in which the
      schema applies them does not change the stored code. */
  lemma UpperTrimCommute(s: string)
    ensures Trim(Upper(s)) == Upper(Trim(s))
  {
    CutPointsUpper(s);
    var u := Upper(s);
    var i, j := LeadingSpaces(s), ContentEnd(s);
    if i < j {
      assert Trim(u) == u[i..j];
      assert Trim(s) == s[i..j];
      UpperSlice(s, i, j);
    } else {
      assert Trim(u) == [] && Trim(s) == [];
    }
  }

  /** Saving a stored code again leaves it as it is. */
  lemma NormalizeIdempotent(s: string)
    ensures Normalize(Normalize(s)) == Normalize(s)
  {
    NormalizedFixpoint(Normalize(s));
  }
}
