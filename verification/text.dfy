/**
 Python's string primitives that the backend applies to OCR output:
 `str.isspace`, `str.split()` with no separator, `str.strip()` with no
 argument, and `str.lower()` (ASCII letters only).
 */
module Text {

  /** Python's `str.isspace` on one character: the characters whose
      bidirectional class is WS, B or S, or whose category is Zs. */
  predicate IsSpace(c: char) {
    || c == ' '
    || ('\U{9}' <= c <= '\U{D}')
    || ('\U{1C}' <= c <= '\U{1F}')
    || c == '\U{85}' || c == '\U{A0}' || c == '\U{1680}'
    || ('\U{2000}' <= c <= '\U{200A}')
    || c == '\U{2028}' || c == '\U{2029}' || c == '\U{202F}'
    || c == '\U{205F}' || c == '\U{3000}'
  }

  predicate NoSpace(s: string) {
    forall i :: 0 <= i < |s| ==> !IsSpace(s[i])
  }

  /** Every character of `s` at a position in `[lo, hi)` is whitespace. */
  predicate SpaceBetween(s: string, lo: nat, hi: nat)
    requires lo <= hi <= |s|
  {
    forall i :: lo <= i < hi ==> IsSpace(s[i])
  }

  /** Length of the longest prefix of `s` that holds no whitespace. */
  function WordLength(s: string): (n: nat)
    ensures n <= |s|
    ensures NoSpace(s[..n])
    ensures n < |s| ==> IsSpace(s[n])
  {
    if s == [] || IsSpace(s[0]) then 0 else 1 + WordLength(s[1..])
  }

  /** `s.split()`: the maximal runs of non-whitespace characters, in order. */
  function Split(s: string): (tokens: seq<string>)
    ensures forall i :: 0 <= i < |tokens| ==> |tokens[i]| > 0 && NoSpace(tokens[i])
    decreases |s|
  {
    if s == [] then []
    else if IsSpace(s[0]) then Split(s[1..])
    else
      var n := WordLength(s);
      [s[..n]] + Split(s[n..])
  }

  /** The concatenation of a sequence of strings. */
  function Concat(ss: seq<string>): string {
    if ss == [] then [] else ss[0] + Concat(ss[1..])
  }

  /** The strings joined with one blank between neighbours: `" ".join(ss)`. */
  function JoinWithBlank(ss: seq<string>): string {
    if ss == [] then []
    else if |ss| == 1 then ss[0]
    else ss[0] + " " + JoinWithBlank(ss[1..])
  }

  /** The characters of `s` that are not whitespace, in order. */
  function NonSpace(s: string): string {
    if s == [] then []
    else if IsSpace(s[0]) then NonSpace(s[1..])
    else [s[0]] + NonSpace(s[1..])
  }

  lemma {:induction false} NonSpaceOfNoSpace(s: string)
    requires NoSpace(s)
    ensures NonSpace(s) == s
  {
    if s != [] {
      NonSpaceOfNoSpace(s[1..]);
    }
  }

  lemma {:induction false} NonSpaceAppend(a: string, b: string)
    ensures NonSpace(a + b) == NonSpace(a) + NonSpace(b)
  {
    if a == [] {
      assert a + b == b;
    } else {
      assert (a + b)[1..] == a[1..] + b;
      NonSpaceAppend(a[1..], b);
    }
  }

  /** Splitting loses exactly the whitespace: the tokens, put back together,
      are the non-whitespace characters of the text in their original order. */
  lemma {:induction false} SplitKeepsAllNonSpace(s: string)
    ensures Concat(Split(s)) == NonSpace(s)
    decreases |s|
  {
    if s == [] {
    } else if IsSpace(s[0]) {
      SplitKeepsAllNonSpace(s[1..]);
    } else {
      var n := WordLength(s);
      var rest := Split(s[n..]);
      assert Split(s) == [s[..n]] + rest;
      assert ([s[..n]] + rest)[1..] == rest;
      SplitKeepsAllNonSpace(s[n..]);
      NonSpaceOfNoSpace(s[..n]);
      assert s == s[..n] + s[n..];
      NonSpaceAppend(s[..n], s[n..]);
    }
  }

  lemma WordLengthOfWordThenSpace(t: string, rest: string)
    requires NoSpace(t)
    requires rest == [] || IsSpace(rest[0])
    ensures WordLength(t + rest) == |t|
    decreases |t|
  {
    if t != [] {
      assert (t + rest)[1..] == t[1..] + rest;
      WordLengthOfWordThenSpace(t[1..], rest);
    } else {
      assert t + rest == rest;
    }
  }

  /** Round trip: splitting the blank-joined tokens gives the tokens back,
      for any tokens that `split()` itself could have produced. */
  lemma {:induction false} SplitJoinRoundTrip(tokens: seq<string>)
    requires forall i :: 0 <= i < |tokens| ==> |tokens[i]| > 0 && NoSpace(tokens[i])
    ensures Split(JoinWithBlank(tokens)) == tokens
  {
    if tokens == [] {
    } else if |tokens| == 1 {
      var t := tokens[0];
      WordLengthOfWordThenSpace(t, []);
      assert t + [] == t;
      assert t[..|t|] == t;
      assert t[|t|..] == [];
    } else {
      var t := tokens[0];
      var rest := JoinWithBlank(tokens[1..]);
      var s := t + " " + rest;
      assert JoinWithBlank(tokens) == s;
      assert s == t + (" " + rest);
      WordLengthOfWordThenSpace(t, " " + rest);
      assert s[..|t|] == t;
      assert s[|t|..] == " " + rest;
      assert (" " + rest)[1..] == rest;
      SplitJoinRoundTrip(tokens[1..]);
      assert Split(s) == [t] + Split(" " + rest);
      assert Split(" " + rest) == Split(rest);
      assert [t] + tokens[1..] == tokens;
    }
  }

  /** `tokens` laid between whitespace runs: `gaps[0] + tokens[0] + gaps[1] +
      ... + tokens[k-1] + gaps[k]`. */
  function Interleave(gaps: seq<string>, tokens: seq<string>): (r: string)
    requires |gaps| == |tokens| + 1
    ensures |gaps[0]| <= |r| && r[..|gaps[0]|] == gaps[0]
    decreases |tokens|
  {
    if tokens == [] then gaps[0]
    else gaps[0] + (tokens[0] + Interleave(gaps[1..], tokens[1..]))
  }

  /** A text that `split()` should cut into `tokens`: non-empty words without
      whitespace, separated by non-empty whitespace runs, with optional
      whitespace before the first and after the last. */
  predicate Separated(gaps: seq<string>, tokens: seq<string>) {
    && |gaps| == |tokens| + 1
    && (forall i :: 0 <= i < |tokens| ==> |tokens[i]| > 0 && NoSpace(tokens[i]))
    && (forall i :: 0 <= i < |gaps| ==> SpaceBetween(gaps[i], 0, |gaps[i]|))
    && (forall i :: 0 < i < |tokens| ==> gaps[i] != [])
  }

  /** Leading whitespace does not change what `split()` returns. */
  lemma {:induction false} SplitSkipsSpace(g: string, rest: string)
    requires SpaceBetween(g, 0, |g|)
    ensures Split(g + rest) == Split(rest)
    decreases |g|
  {
    if g == [] {
      assert g + rest == rest;
    } else {
      assert (g + rest)[1..] == g[1..] + rest;
      assert SpaceBetween(g[1..], 0, |g[1..]|) by {
        forall i | 0 <= i < |g[1..]| ensures IsSpace(g[1..][i]) {
          assert g[1..][i] == g[i + 1];
        }
      }
      SplitSkipsSpace(g[1..], rest);
    }
  }

  /** `split()` cuts at every non-empty whitespace run and nowhere else:
      words separated by whitespace, however long each run and whatever
      whitespace surrounds the text, come back exactly. */
  lemma {:induction false} SplitInterleaveRoundTrip(gaps: seq<string>, tokens: seq<string>)
    requires Separated(gaps, tokens)
    ensures Split(Interleave(gaps, tokens)) == tokens
    decreases |tokens|
  {
    if tokens == [] {
      SplitSkipsSpace(gaps[0], []);
      assert gaps[0] + [] == gaps[0];
    } else {
      var t := tokens[0];
      var r := Interleave(gaps[1..], tokens[1..]);
      assert Interleave(gaps, tokens) == gaps[0] + (t + r);
      SplitSkipsSpace(gaps[0], t + r);
      assert r == [] || IsSpace(r[0]) by {
        if r != [] {
          if |tokens| > 1 {
            assert gaps[1] != [] && SpaceBetween(gaps[1], 0, |gaps[1]|);
            assert r[0] == r[..|gaps[1]|][0];
          } else {
            assert r == gaps[1];
          }
        }
      }
      WordLengthOfWordThenSpace(t, r);
      assert (t + r)[..|t|] == t;
      assert (t + r)[|t|..] == r;
      assert !IsSpace((t + r)[0]);
      assert Split(t + r) == [t] + Split(r);
      assert Separated(gaps[1..], tokens[1..]) by {
        forall i | 0 <= i < |tokens[1..]|
          ensures |tokens[1..][i]| > 0 && NoSpace(tokens[1..][i])
        {
          assert tokens[1..][i] == tokens[i + 1];
        }
        forall i | 0 <= i < |gaps[1..]|
          ensures SpaceBetween(gaps[1..][i], 0, |gaps[1..][i]|)
        {
          assert gaps[1..][i] == gaps[i + 1];
        }
        forall i | 0 < i < |tokens[1..]|
          ensures gaps[1..][i] != []
        {
          assert gaps[1..][i] == gaps[i + 1];
        }
      }
      SplitInterleaveRoundTrip(gaps[1..], tokens[1..]);
      assert [t] + tokens[1..] == tokens;
    }
  }

  /** Where `s.lstrip()` starts: the first position at or after `from`
      that does not hold whitespace. */
  function SkipSpace(s: string, from: nat): (a: nat)
    requires from <= |s|
    ensures from <= a <= |s| && SpaceBetween(s, from, a)
    ensures a < |s| ==> !IsSpace(s[a])
    decreases |s| - from
  {
    if from < |s| && IsSpace(s[from]) then SkipSpace(s, from + 1) else from
  }

  /** Where `s.rstrip()` ends: the position after the last character before
      `upto`, and not before `lo`, that does not hold whitespace. */
  function SkipSpaceBack(s: string, lo: nat, upto: nat): (b: nat)
    requires lo <= upto <= |s|
    ensures lo <= b <= upto && SpaceBetween(s, b, upto)
    ensures b > lo ==> !IsSpace(s[b - 1])
    decreases upto
  {
    if upto > lo && IsSpace(s[upto - 1]) then SkipSpaceBack(s, lo, upto - 1) else upto
  }

  /** `s.strip()`: the slice of `s` left once leading and trailing whitespace
      is cut; everything cut is whitespace and the slice neither starts nor
      ends with whitespace. */
  function Strip(s: string): (r: string)
    ensures exists a, b :: 0 <= a <= b <= |s| && r == s[a..b] && SpaceBetween(s, 0, a) && SpaceBetween(s, b, |s|)
    ensures r == [] || (!IsSpace(r[0]) && !IsSpace(r[|r| - 1]))
  {
    var a := SkipSpace(s, 0);
    var b := SkipSpaceBack(s, a, |s|);
    s[a..b]
  }

  /** A token produced by `split()` has nothing for `strip()` to remove. */
  lemma StripOfNoSpace(s: string)
    requires NoSpace(s)
    ensures Strip(s) == s
  {
  }

  /** Python's `str.lower()` on one character, restricted to ASCII letters. */
  function LowerChar(c: char): char {
    if 'A' <= c <= 'Z' then (c as int + 32) as char else c
  }

  /** `s.lower()` for ASCII: upper-case letters become lower-case, every
      other character, punctuation included, is kept. */
  function Lower(s: string): (r: string)
    ensures |r| == |s|
    ensures forall i :: 0 <= i < |s| ==> !('A' <= r[i] <= 'Z')
    ensures forall i :: 0 <= i < |s| && !('A' <= s[i] <= 'Z') ==> r[i] == s[i]
    ensures forall i :: 0 <= i < |s| && 'A' <= s[i] <= 'Z' ==> r[i] as int == s[i] as int + 32
  {
    seq(|s|, i requires 0 <= i < |s| => LowerChar(s[i]))
  }

  /** Lowering twice is lowering once. */
  lemma LowerIdempotent(s: string)
    ensures Lower(Lower(s)) == Lower(s)
  {
  }

  /** Lowering never creates or removes whitespace. */
  lemma LowerKeepsNoSpace(s: string)
    requires NoSpace(s)
    ensures NoSpace(Lower(s))
  {
  }
}
