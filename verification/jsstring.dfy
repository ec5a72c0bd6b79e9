/**
  The two JavaScript string behaviours the schemas depend on: `length`, which counts
  UTF-16 code units rather than characters, and `toUpperCase`, which follows Unicode
  case mapping and may lengthen a string.
*/
module JsString {

  /** How many UTF-16 code units JavaScript stores for one Unicode scalar value. */
  function CodeUnits(c: char): nat
  {
    if c as int < 0x1_0000 then 1 else 2
  }

  /** JavaScript's `s.length`. */
  function Utf16Length(s: string): nat
  {
    if s == [] then 0 else CodeUnits(s[0]) + Utf16Length(s[1..])
  }

  lemma {:induction false} Utf16LengthAppend(s: string, t: string)
    ensures Utf16Length(s + t) == Utf16Length(s) + Utf16Length(t)
  {
    if s == [] {
      assert s + t == t;
    } else {
      assert (s + t)[0] == s[0];
      assert (s + t)[1..] == s[1..] + t;
      Utf16LengthAppend(s[1..], t);
    }
  }

  /** Every character costs one or two code units. */
  lemma {:induction false} Utf16LengthBounds(s: string)
    ensures |s| <= Utf16Length(s) <= 2 * |s|
  {
    if s != [] {
      Utf16LengthBounds(s[1..]);
    }
  }

  /** The JavaScript length equals the character count exactly for Basic Multilingual Plane text. */
  lemma {:induction false} Utf16LengthOfBmp(s: string)
    ensures Utf16Length(s) == |s| <==> forall i :: 0 <= i < |s| ==> s[i] as int < 0x1_0000
  {
    if s != [] {
      Utf16LengthOfBmp(s[1..]);
      Utf16LengthBounds(s[1..]);
      assert forall i :: 1 <= i < |s| ==> s[i] == s[1..][i - 1];
    }
  }

  /** The Latin small letter sharp s, whose upper-case form is the two letters "SS". */
  const SharpS: char := '\U{00DF}'

  /**
    Upper-case mapping of one character as `String.prototype.toUpperCase` performs it,
    for the Basic Latin and Latin-1 Supplement blocks; characters outside them are
    left as they are.
  */
  function UpperChar(c: char): string
  {
    if 'a' <= c <= 'z' then [(c as int - 32) as char]
    else if c == SharpS then "SS"
    else if c == '\U{00B5}' then ['\U{039C}']
    else if '\U{00E0}' <= c <= '\U{00FE}' && c != '\U{00F7}' then [(c as int - 32) as char]
    else if c == '\U{00FF}' then ['\U{0178}']
    else [c]
  }

  /** JavaScript's `s.toUpperCase()`. */
  function ToUpperCase(s: string): string
  {
    if s == [] then [] else UpperChar(s[0]) + ToUpperCase(s[1..])
  }

  /** No character of `s` has an upper-case form different from itself. */
  predicate IsUpperCase(s: string)
  {
    forall i :: 0 <= i < |s| ==> UpperChar(s[i]) == [s[i]]
  }

  /**
    Every character lies in Basic Latin or the Latin-1 Supplement, the range where
    `UpperChar` is JavaScript's mapping in full.
  */
  predicate IsLatin1(s: string)
  {
    forall i :: 0 <= i < |s| ==> s[i] <= '\U{00FF}'
  }

  /** Number of sharp-s characters, the only Latin-1 characters whose upper-case form is longer. */
  function SharpSCount(s: string): nat
  {
    if s == [] then 0 else (if s[0] == SharpS then 1 else 0) + SharpSCount(s[1..])
  }

  lemma UpperCharIsUpperCase(c: char)
    ensures IsUpperCase(UpperChar(c))
  {
  }

  lemma {:induction false} IsUpperCaseAppend(s: string, t: string)
    requires IsUpperCase(s) && IsUpperCase(t)
    ensures IsUpperCase(s + t)
  {
    forall i | 0 <= i < |s + t|
      ensures UpperChar((s + t)[i]) == [(s + t)[i]]
    {
      if i < |s| {
        assert (s + t)[i] == s[i];
      } else {
        assert (s + t)[i] == t[i - |s|];
      }
    }
  }

  /** Whatever `toUpperCase` returns is already upper case. */
  lemma {:induction false} ToUpperCaseIsUpperCase(s: string)
    ensures IsUpperCase(ToUpperCase(s))
  {
    if s != [] {
      ToUpperCaseIsUpperCase(s[1..]);
      UpperCharIsUpperCase(s[0]);
      IsUpperCaseAppend(UpperChar(s[0]), ToUpperCase(s[1..]));
    }
  }

  /** `toUpperCase` leaves an upper-case string unchanged. */
  lemma {:induction false} ToUpperCaseOfUpperCase(s: string)
    requires IsUpperCase(s)
    ensures ToUpperCase(s) == s
  {
    if s != [] {
      assert UpperChar(s[0]) == [s[0]];
      assert IsUpperCase(s[1..]) by {
        forall i | 0 <= i < |s[1..]|
          ensures UpperChar(s[1..][i]) == [s[1..][i]]
        {
          assert s[1..][i] == s[i + 1];
        }
      }
      ToUpperCaseOfUpperCase(s[1..]);
      assert s == [s[0]] + s[1..];
    }
  }

  /** Upper-casing twice is upper-casing once. */
  lemma ToUpperCaseIdempotent(s: string)
    ensures ToUpperCase(ToUpperCase(s)) == ToUpperCase(s)
  {
    ToUpperCaseIsUpperCase(s);
    ToUpperCaseOfUpperCase(ToUpperCase(s));
  }

  /**
    On Latin-1 text, upper-casing adds exactly one code unit per sharp s and keeps
    every other character's width.
  */
  lemma {:induction false} ToUpperCaseLength(s: string)
    requires IsLatin1(s)
    ensures Utf16Length(ToUpperCase(s)) == Utf16Length(s) + SharpSCount(s)
  {
    if s != [] {
      assert IsLatin1(s[1..]) by {
        forall i | 0 <= i < |s[1..]| ensures s[1..][i] <= '\U{00FF}' {
          assert s[1..][i] == s[i + 1];
        }
      }
      ToUpperCaseLength(s[1..]);
      Utf16LengthAppend(UpperChar(s[0]), ToUpperCase(s[1..]));
      assert Utf16Length(UpperChar(s[0])) == CodeUnits(s[0]) + (if s[0] == SharpS then 1 else 0);
    }
  }

  lemma {:induction false} SharpSCountZero(s: string)
    ensures SharpSCount(s) == 0 <==> forall i :: 0 <= i < |s| ==> s[i] != SharpS
  {
    if s != [] {
      SharpSCountZero(s[1..]);
      assert forall i :: 1 <= i < |s| ==> s[i] == s[1..][i - 1];
    }
  }

  /** On Latin-1 text, `toUpperCase` keeps the JavaScript length exactly when there is no sharp s. */
  lemma ToUpperCaseKeepsLengthIff(s: string)
    requires IsLatin1(s)
    ensures Utf16Length(ToUpperCase(s)) == Utf16Length(s)
            <==> forall i :: 0 <= i < |s| ==> s[i] != SharpS
  {
    ToUpperCaseLength(s);
    SharpSCountZero(s);
  }
}
