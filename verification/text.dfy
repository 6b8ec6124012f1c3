/** String helpers the app uses through Foundation: `split(separator: " ")` (which omits
    empty pieces), `joined(separator:)`, and ASCII lower-casing.
 */
module Text {

  /** A piece that `split(separator: " ")` can return: non-empty, with no space in it. */
  predicate IsWord(w: string)
  {
    |w| > 0 && ' ' !in w
  }

  /** Length of the leading run of non-space characters of `s`. */
  function WordLength(s: string): (n: nat)
    ensures n <= |s|
    ensures ' ' !in s[..n]
    ensures n < |s| ==> s[n] == ' '
  {
    if |s| == 0 || s[0] == ' ' then 0 else 1 + WordLength(s[1..])
  }

  /** `s.split(separator: " ")`: the maximal runs of non-space characters, in order. */
  function Tokens(s: string): (r: seq<string>)
    ensures forall i :: 0 <= i < |r| ==> IsWord(r[i])
    decreases |s|
  {
    if |s| == 0 then []
    else if s[0] == ' ' then Tokens(s[1..])
    else
      var n := WordLength(s);
      [s[..n]] + Tokens(s[n..])
  }

  /** `parts.joined(separator: sep)`. */
  function Join(parts: seq<string>, sep: string): (r: string)
    decreases |parts|
  {
    if |parts| == 0 then ""
    else if |parts| == 1 then parts[0]
    else parts[0] + sep + Join(parts[1..], sep)
  }

  /** `s.split(separator: " ").first ?? ""`. */
  function FirstToken(s: string): (r: string)
    ensures r == "" || IsWord(r)
  {
    var ts := Tokens(s);
    if |ts| == 0 then "" else ts[0]
  }

  /** A string made only of spaces (possibly empty). */
  predicate AllSpaces(s: string)
  {
    forall i :: 0 <= i < |s| ==> s[i] == ' '
  }

  lemma {:induction false} WordLengthOfWord(w: string, rest: string)
    requires ' ' !in w
    requires |rest| == 0 || rest[0] == ' '
    ensures WordLength(w + rest) == |w|
    decreases |w|
  {
    if |w| == 0 {
      assert w + rest == rest;
    } else {
      assert (w + rest)[0] == w[0];
      assert (w + rest)[1..] == w[1..] + rest;
      WordLengthOfWord(w[1..], rest);
    }
  }

  /** Leading spaces are skipped. */
  lemma {:induction false} TokensSkipSpace(rest: string)
    ensures Tokens(" " + rest) == Tokens(rest)
  {
    assert (" " + rest)[1..] == rest;
  }

  /** A word followed by a space-led (or empty) remainder is split off whole. */
  lemma {:induction false} TokensOfWordThen(w: string, rest: string)
    requires IsWord(w)
    requires |rest| == 0 || rest[0] == ' '
    ensures Tokens(w + rest) == [w] + Tokens(rest)
  {
    WordLengthOfWord(w, rest);
    var s := w + rest;
    assert s[0] == w[0];
    assert s[..|w|] == w;
    assert s[|w|..] == rest;
  }

  /** Splitting undoes joining with a single space, for words. */
  lemma {:induction false} TokensOfJoin(parts: seq<string>)
    requires forall i :: 0 <= i < |parts| ==> IsWord(parts[i])
    ensures Tokens(Join(parts, " ")) == parts
    decreases |parts|
  {
    if |parts| == 0 {
    } else if |parts| == 1 {
      TokensOfWordThen(parts[0], "");
      assert parts[0] + "" == parts[0];
    } else {
      var tail := Join(parts[1..], " ");
      TokensOfJoin(parts[1..]);
      assert parts[0] + " " + tail == parts[0] + (" " + tail);
      TokensOfWordThen(parts[0], " " + tail);
      TokensSkipSpace(tail);
      assert [parts[0]] + parts[1..] == parts;
    }
  }

  /** `split` finds no piece exactly when the string has no non-space character. */
  lemma {:induction false} TokensEmptyIff(s: string)
    ensures Tokens(s) == [] <==> AllSpaces(s)
    decreases |s|
  {
    if |s| == 0 {
    } else if s[0] == ' ' {
      TokensEmptyIff(s[1..]);
      assert AllSpaces(s) <==> AllSpaces(s[1..]) by {
        if AllSpaces(s[1..]) {
          forall i | 0 <= i < |s| ensures s[i] == ' ' {
            if i > 0 { assert s[i] == s[1..][i - 1]; }
          }
        }
        if AllSpaces(s) {
          forall i | 0 <= i < |s[1..]| ensures s[1..][i] == ' ' {
            assert s[1..][i] == s[i + 1];
          }
        }
      }
    } else {
      assert !AllSpaces(s) by { assert s[0] != ' '; }
    }
  }

  /** ASCII lower-casing of one character; every other character is kept. */
  function LowerChar(c: char): (r: char)
    ensures 'A' <= c <= 'Z' ==> 'a' <= r <= 'z' && r as int - c as int == 32
    ensures !('A' <= c <= 'Z') ==> r == c
  {
    if 'A' <= c <= 'Z' then (c as int + 32) as char else c
  }

  /** `lowercased()`, restricted to the ASCII letters. */
  function Lowercase(s: string): (r: string)
    ensures |r| == |s|
    ensures forall i :: 0 <= i < |s| ==> r[i] == LowerChar(s[i])
  {
    seq(|s|, i requires 0 <= i < |s| => LowerChar(s[i]))
  }

  /** A lower-cased string holds no ASCII capital. */
  predicate NoAsciiUpper(s: string)
  {
    forall i :: 0 <= i < |s| ==> !('A' <= s[i] <= 'Z')
  }

  /** Lower-casing removes every capital, is idempotent, and identifies strings that differ only in ASCII case. */
  lemma LowercaseFacts(s: string, t: string)
    ensures NoAsciiUpper(Lowercase(s))
    ensures Lowercase(Lowercase(s)) == Lowercase(s)
    ensures NoAsciiUpper(s) ==> Lowercase(s) == s
    ensures |s| == |t| && (forall i :: 0 <= i < |s| ==> LowerChar(s[i]) == LowerChar(t[i])) ==> Lowercase(s) == Lowercase(t)
  {
  }
}
