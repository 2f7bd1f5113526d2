/** The ticker-like token scan of the orchestrator's hallucination guard:
    the matches, in order, of the global regular expression `\b[A-Z]{2,5}\b`
    (no `u` flag, so `\w` and `\b` are ASCII-only).

    A match is exactly a maximal run of word characters that consists of two to
    five upper-case letters: the leading `\b` forbids a word character before
    it, the trailing `\b` forbids one after it. `Spans` computes the matches by
    walking the text run by run; `IsMatch` is the reference definition and
    `SpansFrom` proves the two agree. */
module TickerScan {

  /** A character of `\w` without the `u` flag: `[A-Za-z0-9_]`. */
  predicate IsWordChar(c: char)
  {
    ('A' <= c <= 'Z') || ('a' <= c <= 'z') || ('0' <= c <= '9') || c == '_'
  }

  predicate IsUpper(c: char)
  {
    'A' <= c <= 'Z'
  }

  /** `s[i..j]` is one match of `\b[A-Z]{2,5}\b` in `s`. */
  predicate IsMatch(s: string, i: int, j: int)
  {
    && 0 <= i < j <= |s|
    && 2 <= j - i <= 5
    && (i == 0 || !IsWordChar(s[i - 1]))
    && (j == |s| || !IsWordChar(s[j]))
    && forall k :: i <= k < j ==> IsUpper(s[k])
  }

  /** Spans listed left to right, none overlapping the next. */
  predicate Increasing(spans: seq<(int, int)>)
  {
    forall a, b :: 0 <= a < b < |spans| ==> spans[a].1 <= spans[b].0
  }

  /** Position `i` does not sit strictly inside a run of word characters. */
  predicate AtRunBoundary(s: string, i: nat)
    requires i <= |s|
  {
    i == 0 || i == |s| || !IsWordChar(s[i - 1]) || !IsWordChar(s[i])
  }

  /** The end of the run of word characters that starts at `i`. */
  function RunEnd(s: string, i: nat): (j: nat)
    requires i <= |s|
    ensures i <= j <= |s|
    ensures forall k :: i <= k < j ==> IsWordChar(s[k])
    ensures j == |s| || !IsWordChar(s[j])
    ensures i < |s| && IsWordChar(s[i]) ==> i < j
    decreases |s| - i
  {
    if i < |s| && IsWordChar(s[i]) then RunEnd(s, i + 1) else i
  }

  predicate AllUpper(s: string, i: nat, j: nat)
    requires i <= j <= |s|
  {
    forall k :: i <= k < j ==> IsUpper(s[k])
  }

  /** The matches that start at or after the run boundary `i`. */
  function SpansFrom(s: string, i: nat): (r: seq<(int, int)>)
    requires i <= |s|
    requires AtRunBoundary(s, i)
    ensures forall p :: p in r ==> i <= p.0
    ensures Increasing(r)
    ensures forall a, b :: (a, b) in r <==> IsMatch(s, a, b) && i <= a
    decreases |s| - i
  {
    if i == |s| then []
    else if !IsWordChar(s[i]) then
      var rest := SpansFrom(s, i + 1);
      assert !IsMatch(s, i, i + 2) by { assert !IsUpper(s[i]); }
      rest
    else
      var j := RunEnd(s, i);
      var rest := SpansFrom(s, j);
      var here := if 2 <= j - i <= 5 && AllUpper(s, i, j) then [(i, j)] else [];
      assert forall a, b :: i < a < j ==> !IsMatch(s, a, b) by {
        forall a, b | i < a < j ensures !IsMatch(s, a, b) {
          assert IsWordChar(s[a - 1]);
        }
      }
      here + rest
  }

  /** All matches of `\b[A-Z]{2,5}\b` in `s`, left to right. */
  function Spans(s: string): (r: seq<(int, int)>)
    ensures Increasing(r)
    ensures forall a, b :: (a, b) in r <==> IsMatch(s, a, b)
  {
    SpansFrom(s, 0)
  }

  /** The matched texts, in order: what `s.match(/\b[A-Z]{2,5}\b/g) || []`
      returns. */
  function Tokens(s: string): (r: seq<string>)
  {
    var spans := Spans(s);
    seq(|spans|, k requires 0 <= k < |spans| => s[spans[k].0..spans[k].1])
  }

  /** A text is among the scanned tokens exactly when it is the text of a
      match. */
  lemma TokensAreMatches(s: string, t: string)
    ensures t in Tokens(s) <==> exists a, b :: IsMatch(s, a, b) && s[a..b] == t
  {
    var spans := Spans(s);
    var r := Tokens(s);
    if t in r {
      var k :| 0 <= k < |r| && r[k] == t;
      assert spans[k] in spans;
      assert IsMatch(s, spans[k].0, spans[k].1);
    }
    if a, b :| IsMatch(s, a, b) && s[a..b] == t {
      assert (a, b) in spans;
      var k :| 0 <= k < |spans| && spans[k] == (a, b);
      assert r[k] == t;
    }
  }
}
