/**
 * ASCII string helpers standing in for Go's `strings` package and the
 * JavaScript `String.prototype` methods the source uses. A `char` stands for
 * one byte of a Go string or one UTF-16 unit of a JavaScript string; case
 * folding and white space are the ASCII ones.
 */
module Text {

  /** The white space `strings.TrimSpace`, `strings.Fields` and `String.trim` remove. */
  predicate IsSpace(c: char) {
    c == ' ' || ('\t' <= c <= '\r')
  }

  predicate NoSpace(s: string) {
    forall i :: 0 <= i < |s| ==> !IsSpace(s[i])
  }

  /** Removes leading white space. */
  function TrimLeft(s: string): (r: string)
    ensures |r| <= |s| && r == s[|s| - |r|..]
    ensures r == [] || !IsSpace(r[0])
    ensures forall i :: 0 <= i < |s| - |r| ==> IsSpace(s[i])
  {
    if s == [] || !IsSpace(s[0]) then s else TrimLeft(s[1..])
  }

  /** Removes trailing white space. */
  function TrimRight(s: string): (r: string)
    ensures |r| <= |s| && r == s[..|r|]
    ensures r == [] || !IsSpace(r[|r| - 1])
    ensures forall i :: |r| <= i < |s| ==> IsSpace(s[i])
  {
    if s == [] || !IsSpace(s[|s| - 1]) then s else TrimRight(s[..|s| - 1])
  }

  /** `strings.TrimSpace` / `String.prototype.trim`. */
  function TrimSpace(s: string): (r: string)
    ensures |r| <= |s|
    ensures r == [] || (!IsSpace(r[0]) && !IsSpace(r[|r| - 1]))
  {
    TrimRight(TrimLeft(s))
  }

  predicate IsBlank(s: string) {
    forall i :: 0 <= i < |s| ==> IsSpace(s[i])
  }

  /** A string is trimmed to nothing exactly when it is all white space. */
  lemma TrimSpaceBlank(s: string)
    ensures TrimSpace(s) == [] <==> IsBlank(s)
  {
    var l := TrimLeft(s);
    if l != [] {
      assert l[0] == s[|s| - |l|];
    }
  }

  /** Trimming a trimmed string changes nothing. */
  lemma TrimSpaceIdempotent(s: string)
    ensures TrimSpace(TrimSpace(s)) == TrimSpace(s)
  {
    var t := TrimSpace(s);
    assert TrimLeft(t) == t;
    assert TrimRight(t) == t;
  }

  function LowerChar(c: char): char {
    if 'A' <= c <= 'Z' then (c as int + 32) as char else c
  }

  function UpperChar(c: char): char {
    if 'a' <= c <= 'z' then (c as int - 32) as char else c
  }

  /** `strings.ToLower` / `String.prototype.toLowerCase`, on ASCII letters. */
  function ToLower(s: string): (r: string)
    ensures |r| == |s| && forall i :: 0 <= i < |s| ==> r[i] == LowerChar(s[i])
  {
    seq(|s|, i requires 0 <= i < |s| => LowerChar(s[i]))
  }

  /** `strings.ToUpper`, on ASCII letters. */
  function ToUpper(s: string): (r: string)
    ensures |r| == |s| && forall i :: 0 <= i < |s| ==> r[i] == UpperChar(s[i])
  {
    seq(|s|, i requires 0 <= i < |s| => UpperChar(s[i]))
  }

  /** Lower-casing works one character at a time from the front. */
  lemma ToLowerCons(s: string)
    requires s != []
    ensures ToLower(s) == [LowerChar(s[0])] + ToLower(s[1..])
  {
    assert ToLower(s) == [LowerChar(s[0])] + ToLower(s[1..]) by {
      var a := ToLower(s);
      var b := [LowerChar(s[0])] + ToLower(s[1..]);
      assert |a| == |b|;
      forall i | 0 <= i < |a| ensures a[i] == b[i] {
        if i > 0 {
          assert b[i] == ToLower(s[1..])[i - 1];
        }
      }
    }
  }

  /** No upper-case ASCII letter in `s`. */
  predicate IsLower(s: string) {
    forall i :: 0 <= i < |s| ==> LowerChar(s[i]) == s[i]
  }

  /** Lower-casing gives a lower-case string, and changes nothing in one. */
  lemma ToLowerIsLower(s: string)
    ensures IsLower(ToLower(s))
    ensures IsLower(s) ==> ToLower(s) == s
  {
  }

  /** A slice of a lower-case string is lower-case. */
  lemma SliceKeepsLower(s: string, a: nat, b: nat)
    requires a <= b <= |s| && IsLower(s)
    ensures IsLower(s[a..b])
  {
    forall i | 0 <= i < b - a
      ensures LowerChar(s[a..b][i]) == s[a..b][i]
    {
      assert s[a..b][i] == s[a + i];
    }
  }

  /** Trimming keeps a string lower-case: what is left is a slice of it. */
  lemma TrimSpaceKeepsLower(s: string)
    requires IsLower(s)
    ensures IsLower(TrimSpace(s))
  {
    var left := TrimLeft(s);
    SliceKeepsLower(s, |s| - |left|, |s|);
    var t := TrimRight(left);
    SliceKeepsLower(left, 0, |t|);
  }

  /** Lower-casing and trimming twice gives what doing it once gives. */
  lemma LowerTrimIdempotent(s: string)
    ensures TrimSpace(ToLower(TrimSpace(ToLower(s)))) == TrimSpace(ToLower(s))
  {
    var t := TrimSpace(ToLower(s));
    ToLowerIsLower(s);
    TrimSpaceKeepsLower(ToLower(s));
    ToLowerIsLower(t);
    TrimSpaceIdempotent(ToLower(s));
  }

  /** A lower-case word is left alone by lower-casing and trimming. */
  lemma LowerWordIsNormal(w: string)
    requires w != [] && NoSpace(w) && IsLower(w)
    ensures TrimSpace(ToLower(w)) == w
  {
    ToLowerIsLower(w);
    TrimSpaceOfWord(w);
  }

  /** The empty string has no fields. */
  lemma FieldsOfEmpty(s: string)
    requires s == ""
    ensures Fields(s) == []
  {
    assert TrimLeft(s) == s;
  }

  /** `strings.EqualFold`, on ASCII letters. */
  predicate EqualFold(a: string, b: string) {
    ToLower(a) == ToLower(b)
  }

  /** `strings.HasPrefix`. */
  predicate HasPrefix(s: string, prefix: string) {
    |prefix| <= |s| && s[..|prefix|] == prefix
  }

  /** `strings.TrimPrefix`: drops one occurrence of `prefix` at the start. */
  function TrimPrefix(s: string, prefix: string): (r: string)
    ensures HasPrefix(s, prefix) ==> s == prefix + r
    ensures !HasPrefix(s, prefix) ==> r == s
  {
    if HasPrefix(s, prefix) then s[|prefix|..] else s
  }

  /** The longest prefix of `s` without white space. */
  function Word(s: string): (w: string)
    ensures |w| <= |s| && w == s[..|w|] && NoSpace(w)
    ensures |w| == |s| || IsSpace(s[|w|])
  {
    if s == [] || IsSpace(s[0]) then [] else [s[0]] + Word(s[1..])
  }

  /** `strings.Fields`: the maximal runs of non-space characters, in order. */
  function Fields(s: string): (r: seq<string>)
    ensures forall i :: 0 <= i < |r| ==> r[i] != [] && NoSpace(r[i])
    decreases |s|, 1
  {
    FieldsOfTrimmed(TrimLeft(s))
  }

  /** The fields of a string that does not start with white space. */
  function FieldsOfTrimmed(t: string): (r: seq<string>)
    requires t == [] || !IsSpace(t[0])
    ensures forall i :: 0 <= i < |r| ==> r[i] != [] && NoSpace(r[i])
    decreases |t|, 0
  {
    if t == [] then [] else
      var w := Word(t);
      var rest := Fields(t[|w|..]);
      assert forall i :: 0 < i <= |rest| ==> ([w] + rest)[i] == rest[i - 1];
      [w] + rest
  }

  /** Trimming the left of a string that starts with a non-space character changes nothing. */
  lemma TrimLeftNoLeadingSpace(s: string)
    requires s != [] && !IsSpace(s[0])
    ensures TrimLeft(s) == s
  {
  }

  /** A single word is its own trimmed form. */
  lemma TrimSpaceOfWord(s: string)
    requires s != [] && NoSpace(s)
    ensures TrimSpace(s) == s
  {
    TrimLeftNoLeadingSpace(s);
  }

  /** The first word of a word followed by white space (or nothing) is that word. */
  lemma {:induction false} WordOfWord(w: string, rest: string)
    requires NoSpace(w)
    requires rest == [] || IsSpace(rest[0])
    ensures Word(w + rest) == w
    decreases |w|
  {
    if w == [] {
      assert w + rest == rest;
    } else {
      assert (w + rest)[0] == w[0];
      assert (w + rest)[1..] == w[1..] + rest;
      WordOfWord(w[1..], rest);
    }
  }

  /** One step of `Fields`: the first word after the leading white space, then the fields of the rest. */
  lemma FieldsStep(s: string, w: string)
    requires TrimLeft(s) != [] && w == Word(TrimLeft(s))
    ensures Fields(s) == [w] + Fields(TrimLeft(s)[|w|..])
  {
    assert Fields(s) == FieldsOfTrimmed(TrimLeft(s));
  }

  /** A string of one word followed by nothing has that word as its only field. */
  lemma FieldsOfWord(b: string)
    requires b != [] && NoSpace(b)
    ensures Fields(b) == [b]
  {
    TrimLeftNoLeadingSpace(b);
    WordOfWord(b, []);
    assert b + [] == b;
    FieldsStep(b, b);
    assert b[|b|..] == [];
  }

  /** A leading space is trimmed away. */
  lemma TrimLeftSkipSpace(b: string)
    ensures TrimLeft(" " + b) == TrimLeft(b)
  {
    var s := " " + b;
    assert IsSpace(s[0]);
    assert s[1..] == b;
  }

  /** A word after one space is trimmed back to the word. */
  lemma TrimSpaceOfPadded(w: string)
    requires w != [] && NoSpace(w)
    ensures TrimSpace(" " + w) == w && " " + w != w
  {
    TrimLeftSkipSpace(w);
    TrimSpaceOfWord(w);
    assert |" " + w| == |w| + 1;
  }

  /** Leading white space does not change the fields. */
  lemma FieldsSkipSpace(b: string)
    ensures Fields(" " + b) == Fields(b)
  {
    TrimLeftSkipSpace(b);
  }

  /** A word followed by white space: that word is the first field. */
  lemma FieldsOfWordThen(a: string, rest: string)
    requires a != [] && NoSpace(a) && rest != [] && IsSpace(rest[0])
    ensures Fields(a + rest) == [a] + Fields(rest)
  {
    var s := a + rest;
    assert s[0] == a[0];
    TrimLeftNoLeadingSpace(s);
    WordOfWord(a, rest);
    FieldsStep(s, a);
    assert s[|a|..] == rest;
  }

  /** A word and white space then another word split into exactly those two fields. */
  lemma FieldsOfTwoWords(a: string, b: string)
    requires a != [] && b != [] && NoSpace(a) && NoSpace(b)
    ensures Fields(a + " " + b) == [a, b]
  {
    assert a + " " + b == a + (" " + b);
    FieldsOfWordThen(a, " " + b);
    FieldsSkipSpace(b);
    FieldsOfWord(b);
  }
}
