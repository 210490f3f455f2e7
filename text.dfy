/** Whitespace tokenising as done by `std::istream >> std::string`, and the
    joining of tokens with a separator, as the report and trace formats use. */
module Text {

  /** The characters `isspace` accepts in the "C" locale. */
  predicate IsSpace(c: char) {
    c == ' ' || c == '\t' || c == '\n' || c == '\U{0B}' || c == '\U{0C}' || c == '\r'
  }

  /** A token as `>>` extracts it: non-empty and free of whitespace. */
  predicate IsWord(s: string) {
    |s| > 0 && forall i :: 0 <= i < |s| ==> !IsSpace(s[i])
  }

  /** Length of the longest whitespace-free prefix of `s`. */
  function WordLen(s: string): (n: nat)
    ensures n <= |s|
    ensures forall i :: 0 <= i < n ==> !IsSpace(s[i])
    ensures n < |s| ==> IsSpace(s[n])
  {
    if s == [] || IsSpace(s[0]) then 0 else 1 + WordLen(s[1..])
  }

  /** The tokens successive `>>` extractions of strings yield from `s`. */
  function Tokens(s: string): (ts: seq<string>)
    decreases |s|
  {
    if s == [] then []
    else if IsSpace(s[0]) then Tokens(s[1..])
    else var n := WordLen(s); [s[..n]] + Tokens(s[n..])
  }

  /** Tokens joined by one separator character. */
  function Join(ts: seq<string>, sep: char): (s: string)
  {
    if ts == [] then ""
    else if |ts| == 1 then ts[0]
    else ts[0] + [sep] + Join(ts[1..], sep)
  }

  lemma {:induction false} TokensAreWords(s: string)
    ensures forall i :: 0 <= i < |Tokens(s)| ==> IsWord(Tokens(s)[i])
    decreases |s|
  {
    if s == [] {
    } else if IsSpace(s[0]) {
      TokensAreWords(s[1..]);
    } else {
      var n := WordLen(s);
      TokensAreWords(s[n..]);
    }
  }

  lemma {:induction false} WordLenOfWordPrefix(w: string, rest: string)
    requires IsWord(w)
    requires rest == [] || IsSpace(rest[0])
    ensures WordLen(w + rest) == |w|
    decreases |w|
  {
    if |w| > 1 {
      assert (w + rest)[1..] == w[1..] + rest;
      WordLenOfWordPrefix(w[1..], rest);
    } else {
      assert (w + rest)[1..] == rest;
    }
  }

  /** A single word tokenises to itself. */
  lemma TokensOfWord(w: string)
    requires IsWord(w)
    ensures Tokens(w) == [w]
  {
    WordLenOfWordPrefix(w, []);
    assert w + [] == w;
    assert w[..|w|] == w;
    assert w[|w|..] == [];
  }

  /** A whitespace character splits the token stream in two. */
  lemma {:induction false} TokensSplitAtSpace(x: string, c: char, y: string)
    requires IsSpace(c)
    ensures Tokens(x + [c] + y) == Tokens(x) + Tokens(y)
    decreases |x|
  {
    var s := x + [c] + y;
    if x == [] {
      assert s[1..] == y;
    } else if IsSpace(x[0]) {
      assert s[1..] == x[1..] + [c] + y;
      TokensSplitAtSpace(x[1..], c, y);
    } else {
      var n := WordLen(x);
      WordLenSplit(x, c, y);
      assert s[..n] == x[..n];
      assert s[n..] == x[n..] + [c] + y;
      TokensSplitAtSpace(x[n..], c, y);
    }
  }

  lemma {:induction false} WordLenSplit(x: string, c: char, y: string)
    requires IsSpace(c)
    ensures WordLen(x + [c] + y) == WordLen(x)
    decreases |x|
  {
    if x != [] && !IsSpace(x[0]) {
      assert (x + [c] + y)[1..] == x[1..] + [c] + y;
      WordLenSplit(x[1..], c, y);
    }
  }

  /** Joining words with a whitespace separator and tokenising gives the words back. */
  lemma {:induction false} TokensOfJoin(ts: seq<string>, sep: char)
    requires IsSpace(sep)
    requires forall i :: 0 <= i < |ts| ==> IsWord(ts[i])
    ensures Tokens(Join(ts, sep)) == ts
    decreases |ts|
  {
    if ts == [] {
    } else if |ts| == 1 {
      TokensOfWord(ts[0]);
    } else {
      TokensSplitAtSpace(ts[0], sep, Join(ts[1..], sep));
      TokensOfWord(ts[0]);
      TokensOfJoin(ts[1..], sep);
    }
  }
}
