/**
  Anchored regular expressions built from single-character atoms with exact
  repetition counts (`^a{n}b{m}...$`), the only shape the schemas use.
*/
module Regex {

  /** One character position of a pattern: a literal or a bracket class of inclusive ranges. */
  datatype Atom = Literal(c: char) | Class(ranges: seq<(char, char)>)

  /** `atom{count}`. */
  datatype Piece = Piece(atom: Atom, count: nat)

  /** A pattern anchored at both ends: `^` piece piece ... `$`. */
  type Pattern = seq<Piece>

  predicate AtomMatches(a: Atom, c: char)
  {
    match a
    case Literal(l) => c == l
    case Class(ranges) => exists k :: 0 <= k < |ranges| && ranges[k].0 <= c <= ranges[k].1
  }

  /** Matches `s` against the whole pattern, consuming one character per atom occurrence. */
  function Matches(p: Pattern, s: string): bool
    decreases |s|, |p|
  {
    if p == [] then s == []
    else if p[0].count == 0 then Matches(p[1..], s)
    else s != [] && AtomMatches(p[0].atom, s[0])
         && Matches([Piece(p[0].atom, p[0].count - 1)] + p[1..], s[1..])
  }

  /** A leading `atom{k}` consumes exactly the first k characters, each matching the atom. */
  lemma {:induction false} MatchesPiece(a: Atom, k: nat, rest: Pattern, s: string)
    ensures Matches([Piece(a, k)] + rest, s)
            <==> k <= |s| && (forall i :: 0 <= i < k ==> AtomMatches(a, s[i])) && Matches(rest, s[k..])
  {
    var p := [Piece(a, k)] + rest;
    assert p[0] == Piece(a, k) && p[1..] == rest;
    if k > 0 && s != [] {
      MatchesPiece(a, k - 1, rest, s[1..]);
      if k <= |s| {
        assert s[1..][k - 1..] == s[k..];
        assert forall i :: 1 <= i < k ==> s[1..][i - 1] == s[i];
      }
    }
  }
}
