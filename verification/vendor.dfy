/**
  The `primary_color` key of the vendor-profile schemas:
  `z.string().regex(/^#[0-9A-Fa-f]{6}$/)`, `.nullable()` on create and
  `.nullable().optional()` on update.
*/
module Vendor {
  import opened Wrappers
  import opened JsString
  import opened Zod
  import Regex

  /** `[0-9A-Fa-f]`. */
  const HexDigitClass: Regex.Atom := Regex.Class([('0', '9'), ('A', 'F'), ('a', 'f')])

  /** `^#[0-9A-Fa-f]{6}$`. */
  const HexColorPattern: Regex.Pattern :=
    [Regex.Piece(Regex.Literal('#'), 1), Regex.Piece(HexDigitClass, 6)]

  predicate IsHexDigit(c: char)
  {
    '0' <= c <= '9' || 'A' <= c <= 'F' || 'a' <= c <= 'f'
  }

  /** A colour as the pattern describes it, stated without the regular expression. */
  predicate IsHexColor(s: string)
  {
    |s| == 7 && s[0] == '#' && forall i :: 1 <= i < 7 ==> IsHexDigit(s[i])
  }

  lemma HexDigitClassMatches(c: char)
    ensures Regex.AtomMatches(HexDigitClass, c) <==> IsHexDigit(c)
  {
    var ranges := [('0', '9'), ('A', 'F'), ('a', 'f')];
    if IsHexDigit(c) {
      var k := if '0' <= c <= '9' then 0 else if 'A' <= c <= 'F' then 1 else 2;
      assert ranges[k].0 <= c <= ranges[k].1;
    }
  }

  /** The regular expression accepts exactly the seven-character hexadecimal colours. */
  lemma HexColorPatternMatches(s: string)
    ensures Regex.Matches(HexColorPattern, s) <==> IsHexColor(s)
  {
    var hash := Regex.Literal('#');
    var digits := [Regex.Piece(HexDigitClass, 6)];
    assert HexColorPattern == [Regex.Piece(hash, 1)] + digits;
    Regex.MatchesPiece(hash, 1, digits, s);
    if 1 <= |s| {
      Regex.MatchesPiece(HexDigitClass, 6, [], s[1..]);
      assert digits == [Regex.Piece(HexDigitClass, 6)] + [];
      if 7 <= |s| {
        assert Regex.Matches([], s[1..][6..]) <==> |s| == 7;
      }
      forall i | 0 <= i < |s| - 1 {
        HexDigitClassMatches(s[1..][i]);
      }
      if IsHexColor(s) {
        assert forall i :: 0 <= i < 6 ==> Regex.AtomMatches(HexDigitClass, s[1..][i]) by {
          forall i | 0 <= i < 6 ensures Regex.AtomMatches(HexDigitClass, s[1..][i]) {
            assert s[1..][i] == s[i + 1];
          }
        }
      }
      if Regex.Matches(HexColorPattern, s) {
        forall i | 1 <= i < 7 ensures IsHexDigit(s[i]) {
          assert s[i] == s[1..][i - 1];
        }
      }
    }
  }

  /** `primary_color` on `createVendorProfileInputSchema`. */
  function PrimaryColor(f: Field<string>): (r: Check<Option<string>>)
    ensures r.Ok? <==> f.Null? || (f.Present? && IsHexColor(f.value))
    ensures r.Ok? && r.value.Some? ==> f == Present(r.value.value) && Utf16Length(r.value.value) == 7
  {
    HexColorFieldFacts(f);
    Nullable(f, StrRegex(f, HexColorPattern))
  }

  /** `primary_color` on `updateVendorProfileInputSchema`: the key may also be left out. */
  function PrimaryColorUpdate(f: Field<string>): (r: Check<Opt<Option<string>>>)
    ensures r.Ok? <==> f.Missing? || f.Null? || (f.Present? && IsHexColor(f.value))
    ensures r.Ok? && r.value.Given? && r.value.value.Some?
            ==> f == Present(r.value.value.value) && Utf16Length(r.value.value.value) == 7
  {
    HexColorFieldFacts(f);
    NullableOptional(f, StrRegex(f, HexColorPattern))
  }

  /** What the colour checks need to know about a present key. */
  lemma HexColorFieldFacts(f: Field<string>)
    ensures f.Present? ==> (Regex.Matches(HexColorPattern, f.value) <==> IsHexColor(f.value))
    ensures f.Present? && IsHexColor(f.value) ==> Utf16Length(f.value) == 7
  {
    if f.Present? {
      HexColorPatternMatches(f.value);
      if IsHexColor(f.value) {
        Utf16LengthOfHexColor(f.value);
      }
    }
  }

  /** A colour is plain ASCII, so its JavaScript length is its character count. */
  lemma Utf16LengthOfHexColor(s: string)
    requires IsHexColor(s)
    ensures Utf16Length(s) == 7
  {
    Utf16LengthOfBmp(s);
  }
}
