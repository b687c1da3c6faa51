/**
 * The pieces of Python 2 `str` that both scripts rely on: the whitespace
 * class (`\s` of a byte-string regex, `str.isspace`), `str.split()` with no
 * separator, and `str.strip()` with no argument.
 */
module PyText {

  /**
   * Space, tab, newline, carriage return, vertical tab, form feed: the same
   * class for `\s`, `split()` and `strip()`. All of it lies between tab and
   * space, so no printable character other than the space is whitespace.
   */
  predicate IsSpace(c: char)
    ensures IsSpace(c) ==> '\t' <= c <= ' '
    ensures IsSpace(c) ==> c == ' ' || c < ' '
  {
    c == ' ' || c == '\t' || c == '\n' || c == '\r' || c == '\U{0B}' || c == '\U{0C}'
  }

  predicate AllSpace(s: string)
  {
    forall i :: 0 <= i < |s| ==> IsSpace(s[i])
  }

  /** What `split()` can return: a non-empty run of non-whitespace characters. */
  predicate IsToken(w: string)
  {
    w != [] && forall i :: 0 <= i < |w| ==> !IsSpace(w[i])
  }

  /** Length of the run of non-whitespace characters that starts `s`. */
  function WordLength(s: string): (n: nat)
    ensures n <= |s|
    ensures forall i :: 0 <= i < n ==> !IsSpace(s[i])
    ensures n < |s| ==> IsSpace(s[n])
  {
    if s == [] || IsSpace(s[0]) then 0 else 1 + WordLength(s[1..])
  }

  /**
   * `s.split()`: the maximal runs of non-whitespace characters, in order;
   * leading, trailing and repeated whitespace yield no empty tokens.
   */
  function Split(s: string): (r: seq<string>)
    ensures forall i :: 0 <= i < |r| ==> IsToken(r[i])
    ensures r == [] <==> AllSpace(s)
    decreases |s|
  {
    if s == [] then []
    else if IsSpace(s[0]) then Split(s[1..])
    else
      var n := WordLength(s);
      [s[..n]] + Split(s[n..])
  }

  /** Tokens written out with one space between them (`" ".join(ts)`). */
  function Join(ts: seq<string>): string
  {
    if ts == [] then ""
    else if |ts| == 1 then ts[0]
    else ts[0] + " " + Join(ts[1..])
  }

  /** `s.lstrip()`: `s` without its leading whitespace. */
  function TrimLeft(s: string): (r: string)
    ensures |r| <= |s| && r == s[|s| - |r|..]
    ensures AllSpace(s[..|s| - |r|])
    ensures r == [] || !IsSpace(r[0])
  {
    if s != [] && IsSpace(s[0]) then
      var r := TrimLeft(s[1..]);
      assert s[..|s| - |r|] == [s[0]] + s[1..][..|s| - 1 - |r|];
      r
    else s
  }

  /** `s.rstrip()`: `s` without its trailing whitespace. */
  function TrimRight(s: string): (r: string)
    ensures |r| <= |s| && r == s[..|r|]
    ensures AllSpace(s[|r|..])
    ensures r == [] || !IsSpace(r[|r| - 1])
  {
    if s != [] && IsSpace(s[|s| - 1]) then
      var r := TrimRight(s[..|s| - 1]);
      assert s[|r|..] == s[..|s| - 1][|r|..] + [s[|s| - 1]];
      r
    else s
  }

  /** `s.strip()`: neither end of the result is whitespace. */
  function Strip(s: string): (r: string)
    ensures r == [] || (!IsSpace(r[0]) && !IsSpace(r[|r| - 1]))
    ensures |r| <= |s|
  {
    TrimRight(TrimLeft(s))
  }

  // ---------------------------------------------------------------------------
  // split()

  /** Whitespace in front of a string adds no token. */
  lemma {:induction false} SplitAfterSpace(w: string, s: string)
    requires AllSpace(w)
    ensures Split(w + s) == Split(s)
    decreases |w|
  {
    if w != [] {
      assert w + s != [] && (w + s)[0] == w[0] && IsSpace(w[0]);
      assert (w + s)[1..] == w[1..] + s;
      SplitAfterSpace(w[1..], s);
    } else {
      assert w + s == s;
    }
  }

  /** A token followed by whitespace (or nothing) is split off whole. */
  lemma {:induction false} SplitToken(t: string, s: string)
    requires IsToken(t)
    requires s == [] || IsSpace(s[0])
    ensures Split(t + s) == [t] + Split(s)
  {
    WordLengthOfToken(t, s);
    assert (t + s)[..|t|] == t;
    assert (t + s)[|t|..] == s;
  }

  lemma {:induction false} WordLengthOfToken(t: string, s: string)
    requires forall i :: 0 <= i < |t| ==> !IsSpace(t[i])
    requires s == [] || IsSpace(s[0])
    ensures WordLength(t + s) == |t|
    decreases |t|
  {
    if t == [] {
      assert t + s == s;
    } else {
      assert (t + s)[0] == t[0];
      assert (t + s)[1..] == t[1..] + s;
      WordLengthOfToken(t[1..], s);
    }
  }

  /**
   * `split()` undoes `join`: tokens joined by single spaces, with any trailing
   * whitespace such as the line's newline, split back into the same tokens.
   */
  lemma {:induction false} SplitJoin(ts: seq<string>, trail: string)
    requires forall i :: 0 <= i < |ts| ==> IsToken(ts[i])
    requires AllSpace(trail)
    ensures Split(Join(ts) + trail) == ts
    decreases |ts|
  {
    if ts == [] {
      assert Join(ts) + trail == trail + [];
      SplitAfterSpace(trail, []);
    } else if |ts| == 1 {
      assert Join(ts) + trail == ts[0] + trail;
      SplitToken(ts[0], trail);
      assert trail + [] == trail;
      SplitAfterSpace(trail, []);
    } else {
      var t, more := ts[0], ts[1..];
      var rest := Join(more) + trail;
      assert Join(ts) == t + " " + Join(more);
      assert Join(ts) + trail == t + (" " + rest);
      SplitToken(t, " " + rest);
      SplitAfterSpace(" ", rest);
      assert forall i :: 0 <= i < |more| ==> more[i] == ts[i + 1];
      SplitJoin(more, trail);
      assert [t] + more == ts;
    }
  }

  // ---------------------------------------------------------------------------
  // strip()

  lemma {:induction false} TrimLeftPadded(lead: string, rest: string)
    requires AllSpace(lead)
    requires rest == [] || !IsSpace(rest[0])
    ensures TrimLeft(lead + rest) == rest
    decreases |lead|
  {
    if lead == [] {
      assert lead + rest == rest;
    } else {
      assert (lead + rest)[1..] == lead[1..] + rest;
      TrimLeftPadded(lead[1..], rest);
    }
  }

  lemma {:induction false} TrimRightPadded(rest: string, trail: string)
    requires AllSpace(trail)
    requires rest == [] || !IsSpace(rest[|rest| - 1])
    ensures TrimRight(rest + trail) == rest
    decreases |trail|
  {
    if trail == [] {
      assert rest + trail == rest;
    } else {
      var s := rest + trail;
      assert s[..|s| - 1] == rest + trail[..|trail| - 1];
      TrimRightPadded(rest, trail[..|trail| - 1]);
    }
  }

  /**
   * `strip()` removes exactly the surrounding whitespace: a text with no
   * whitespace at either end comes back unchanged whatever blank padding
   * surrounds it.
   */
  lemma StripPadded(lead: string, w: string, trail: string)
    requires AllSpace(lead) && AllSpace(trail)
    requires w == [] || (!IsSpace(w[0]) && !IsSpace(w[|w| - 1]))
    ensures Strip(lead + w + trail) == w
  {
    if w == [] {
      assert lead + w + trail == lead + trail;
      assert AllSpace(lead + trail);
      assert TrimLeft(lead + trail) == [];
    } else {
      assert lead + w + trail == lead + (w + trail);
      TrimLeftPadded(lead, w + trail);
      TrimRightPadded(w, trail);
    }
  }
}
