/**
 * The tokenizer: `strtok` (ISO C11 section 7.24.5.8) with the delimiter set
 * LSH_TOK_DELIM splits a NUL-terminated line in place, and the start of each
 * token is stored in a growable, NULL-terminated array of LSH_TOK_BUFSIZE
 * slots that grows by the same amount.
 *
 * The specification is `Tokens`: the maximal non-empty runs of non-delimiter
 * characters, left to right, characterised independently by `TokensIff`.
 */
module Tokenizer {
  import opened CString
  import opened LineReader

  /** LSH_TOK_BUFSIZE: the initial capacity and the growth step of the token array. */
  const TokBufSize: nat := 64

  /** A non-empty string with no delimiter in it. */
  ghost predicate Word(t: seq<char>)
  {
    t != [] && forall k :: 0 <= k < |t| ==> !IsDelim(t[k])
  }

  /** A string made of delimiters only (possibly empty). */
  ghost predicate Blank(g: seq<char>)
  {
    forall k :: 0 <= k < |g| ==> IsDelim(g[k])
  }

  /** The length of the leading run of non-delimiters. */
  function RunLength(s: seq<char>): (n: nat)
    ensures n <= |s|
    ensures forall k :: 0 <= k < n ==> !IsDelim(s[k])
    ensures n < |s| ==> IsDelim(s[n])
  {
    if s == [] || IsDelim(s[0]) then 0 else 1 + RunLength(s[1..])
  }

  /** The maximal non-empty runs of non-delimiters of `s`, left to right. */
  function Tokens(s: seq<char>): seq<seq<char>>
    decreases |s|
  {
    if s == [] then []
    else if IsDelim(s[0]) then Tokens(s[1..])
    else
      var n := RunLength(s);
      [s[..n]] + Tokens(s[n..])
  }

  /** Every token is non-empty and holds no delimiter. */
  lemma {:induction false} TokensAreWords(s: seq<char>)
    ensures forall i :: 0 <= i < |Tokens(s)| ==> Word(Tokens(s)[i])
    decreases |s|
  {
    if s == [] {
    } else if IsDelim(s[0]) {
      TokensAreWords(s[1..]);
    } else {
      var n := RunLength(s);
      TokensAreWords(s[n..]);
      assert Tokens(s) == [s[..n]] + Tokens(s[n..]);
    }
  }

  /** Leading delimiters produce no token. */
  lemma {:induction false} TokensSkipBlank(g: seq<char>, s: seq<char>)
    requires Blank(g)
    ensures Tokens(g + s) == Tokens(s)
  {
    if g != [] {
      var x := g + s;
      assert x != [] && x[0] == g[0] && IsDelim(x[0]);
      assert x[1..] == g[1..] + s;
      TokensSkipBlank(g[1..], s);
      assert Tokens(x) == Tokens(x[1..]);
    } else {
      assert g + s == s;
    }
  }

  /** A word followed by the end of the string or a delimiter is the first token. */
  lemma TokensWordFirst(w: seq<char>, s: seq<char>)
    requires Word(w)
    requires s == [] || IsDelim(s[0])
    ensures Tokens(w + s) == [w] + Tokens(s)
  {
    var ws := w + s;
    var n := RunLength(ws);
    assert forall k :: 0 <= k < |w| ==> ws[k] == w[k];
    assert s != [] ==> ws[|w|] == s[0];
    assert n == |w|;
    assert ws[..n] == w && ws[n..] == s;
  }

  /**
   * A layout of a string around tokens `ts`: the gaps between them. The gaps
   * are delimiters only; the ones between two tokens are non-empty.
   */
  ghost predicate IsLayout(gaps: seq<seq<char>>, ts: seq<seq<char>>)
  {
    && |gaps| == |ts| + 1
    && (forall i :: 0 <= i < |gaps| ==> Blank(gaps[i]))
    && (forall i :: 0 < i < |ts| ==> gaps[i] != [])
    && (forall i :: 0 <= i < |ts| ==> Word(ts[i]))
  }

  /** gaps[0] + ts[0] + gaps[1] + ... + ts[n-1] + gaps[n]. */
  function Interleave(gaps: seq<seq<char>>, ts: seq<seq<char>>): seq<char>
    requires |gaps| == |ts| + 1
    decreases ts
  {
    if ts == [] then gaps[0] else gaps[0] + ts[0] + Interleave(gaps[1..], ts[1..])
  }

  /** Tokenizing a string laid out around words gives back exactly those words. */
  lemma {:induction false} TokensOfLayout(gaps: seq<seq<char>>, ts: seq<seq<char>>)
    requires IsLayout(gaps, ts)
    ensures Tokens(Interleave(gaps, ts)) == ts
    decreases ts
  {
    if ts == [] {
      TokensSkipBlank(gaps[0], []);
      assert gaps[0] + [] == gaps[0];
    } else {
      var rest := Interleave(gaps[1..], ts[1..]);
      assert IsLayout(gaps[1..], ts[1..]) by {
        forall i | 0 < i < |ts[1..]| ensures gaps[1..][i] != [] {
          assert gaps[1..][i] == gaps[i + 1];
        }
      }
      TokensOfLayout(gaps[1..], ts[1..]);
      assert rest == [] || IsDelim(rest[0]) by {
        if ts[1..] == [] {
          assert rest == gaps[1];
        } else {
          assert gaps[1] != [];
          assert rest == gaps[1] + (ts[1..][0] + Interleave(gaps[2..], ts[2..]));
          assert rest[0] == gaps[1][0];
        }
      }
      TokensWordFirst(ts[0], rest);
      TokensSkipBlank(gaps[0], ts[0] + rest);
      assert gaps[0] + ts[0] + rest == gaps[0] + (ts[0] + rest);
      assert ts == [ts[0]] + ts[1..];
    }
  }

  /** The delimiter runs around the tokens of `s`. */
  function Gaps(s: seq<char>): (r: seq<seq<char>>)
    ensures |r| == |Tokens(s)| + 1
    decreases |s|
  {
    if s == [] then [[]]
    else if IsDelim(s[0]) then
      var g := Gaps(s[1..]);
      [[s[0]] + g[0]] + g[1..]
    else
      [[]] + Gaps(s[RunLength(s)..])
  }

  /** Every string is laid out around its tokens. */
  lemma {:induction false} LayoutOfTokens(s: seq<char>)
    ensures IsLayout(Gaps(s), Tokens(s))
    ensures Interleave(Gaps(s), Tokens(s)) == s
    decreases |s|, 1
  {
    if s == [] {
    } else if IsDelim(s[0]) {
      LayoutOfTokens(s[1..]);
      LayoutAfterDelim(s);
    } else {
      LayoutOfWordStart(s);
    }
  }

  /** The case of LayoutOfTokens where the string opens with a word. */
  lemma {:induction false} LayoutOfWordStart(s: seq<char>)
    requires s != [] && !IsDelim(s[0])
    ensures IsLayout(Gaps(s), Tokens(s))
    ensures Interleave(Gaps(s), Tokens(s)) == s
    decreases |s|, 0
  {
    var n := RunLength(s);
    var w, rest := s[..n], s[n..];
    assert Gaps(s) == [[]] + Gaps(rest) && Tokens(s) == [w] + Tokens(rest) && s == w + rest;
    RunIsWord(s);
    LayoutOfTokens(rest);
    LayoutAfterWord(w, rest, Gaps(rest), Tokens(rest));
  }

  /** The leading run of a string that opens with a non-delimiter is a word, and a delimiter or the end follows it. */
  lemma RunIsWord(s: seq<char>)
    requires s != [] && !IsDelim(s[0])
    ensures 0 < RunLength(s) && Word(s[..RunLength(s)])
    ensures s[RunLength(s)..] == [] || IsDelim(s[RunLength(s)..][0])
  {
    var n := RunLength(s);
    assert forall k :: 0 <= k < n ==> s[..n][k] == s[k];
  }

  /** A leading delimiter joins the first gap of the rest of the line. */
  lemma LayoutAfterDelim(s: seq<char>)
    requires s != [] && IsDelim(s[0])
    requires IsLayout(Gaps(s[1..]), Tokens(s[1..]))
    requires Interleave(Gaps(s[1..]), Tokens(s[1..])) == s[1..]
    ensures IsLayout(Gaps(s), Tokens(s))
    ensures Interleave(Gaps(s), Tokens(s)) == s
  {
    var g, ts := Gaps(s[1..]), Tokens(s[1..]);
    assert Gaps(s) == [[s[0]] + g[0]] + g[1..] && Tokens(s) == ts;
    LayoutWidenFirstGap(s[0], g, ts);
    InterleaveWidenFirstGap(s[0], g, ts);
    assert s == [s[0]] + s[1..];
  }

  lemma LayoutWidenFirstGap(c: char, g: seq<seq<char>>, ts: seq<seq<char>>)
    requires IsDelim(c) && IsLayout(g, ts)
    ensures IsLayout([[c] + g[0]] + g[1..], ts)
  {
    var g' := [[c] + g[0]] + g[1..];
    assert forall i :: 0 < i < |g'| ==> g'[i] == g[i];
    assert Blank(g'[0]) by {
      assert forall k :: 0 < k < |g'[0]| ==> g'[0][k] == g[0][k - 1];
    }
  }

  lemma InterleaveWidenFirstGap(c: char, g: seq<seq<char>>, ts: seq<seq<char>>)
    requires |g| == |ts| + 1
    ensures Interleave([[c] + g[0]] + g[1..], ts) == [c] + Interleave(g, ts)
  {
    var g' := [[c] + g[0]] + g[1..];
    if ts != [] {
      assert g'[1..] == g[1..];
      var tail := Interleave(g[1..], ts[1..]);
      assert ([c] + g[0]) + ts[0] + tail == [c] + (g[0] + ts[0] + tail);
    }
  }

  /** A leading word is the first token, with an empty gap before it. */
  lemma LayoutAfterWord(w: seq<char>, rest: seq<char>, g: seq<seq<char>>, ts: seq<seq<char>>)
    requires Word(w) && (rest == [] || IsDelim(rest[0]))
    requires IsLayout(g, ts) && Interleave(g, ts) == rest
    ensures IsLayout([[]] + g, [w] + ts)
    ensures Interleave([[]] + g, [w] + ts) == w + rest
  {
    if ts != [] {
      LayoutOpensWithGap(g, ts);
    }
    LayoutPrependWord(w, g, ts);
    InterleavePrependWord(w, g, ts);
  }

  /** A layout whose first gap is empty opens with its first word. */
  lemma LayoutOpensWithGap(g: seq<seq<char>>, ts: seq<seq<char>>)
    requires IsLayout(g, ts) && ts != []
    requires Interleave(g, ts) == [] || IsDelim(Interleave(g, ts)[0])
    ensures g[0] != []
  {
  }

  lemma LayoutPrependWord(w: seq<char>, g: seq<seq<char>>, ts: seq<seq<char>>)
    requires Word(w) && IsLayout(g, ts)
    requires ts != [] ==> g[0] != []
    ensures IsLayout([[]] + g, [w] + ts)
  {
    var g', ts' := [[]] + g, [w] + ts;
    assert forall i :: 0 < i < |g'| ==> g'[i] == g[i - 1];
    assert forall i :: 0 < i < |ts'| ==> ts'[i] == ts[i - 1];
  }

  lemma InterleavePrependWord(w: seq<char>, g: seq<seq<char>>, ts: seq<seq<char>>)
    requires |g| == |ts| + 1
    ensures Interleave([[]] + g, [w] + ts) == w + Interleave(g, ts)
  {
    var g', ts' := [[]] + g, [w] + ts;
    calc {
      Interleave(g', ts');
      g'[0] + ts'[0] + Interleave(g'[1..], ts'[1..]);
      { assert g'[1..] == g && ts'[1..] == ts; }
      [] + w + Interleave(g, ts);
      { assert [] + w == w; }
      w + Interleave(g, ts);
    }
  }

  /**
   * `ts` is the token list of `s` exactly when `s` is the words of `ts`
   * separated by non-empty delimiter runs, with optional delimiters before
   * and after.
   */
  lemma TokensIff(s: seq<char>, ts: seq<seq<char>>)
    ensures Tokens(s) == ts <==> exists gaps :: IsLayout(gaps, ts) && Interleave(gaps, ts) == s
  {
    if Tokens(s) == ts {
      LayoutOfTokens(s);
    }
    if gaps :| IsLayout(gaps, ts) && Interleave(gaps, ts) == s {
      TokensOfLayout(gaps, ts);
    }
  }

  /** An empty or all-delimiter line has no tokens, and only such a line. */
  lemma {:induction false} TokensEmptyIff(s: seq<char>)
    ensures Tokens(s) == [] <==> Blank(s)
  {
    if Blank(s) {
      TokensSkipBlank(s, []);
      assert s + [] == s;
    } else {
      LayoutOfTokens(s);
    }
  }

  /** Every character of every token is a character of the line. */
  lemma {:induction false} TokensAreFromLine(s: seq<char>)
    ensures forall i, k :: 0 <= i < |Tokens(s)| && 0 <= k < |Tokens(s)[i]| ==> Tokens(s)[i][k] in s
    decreases |s|
  {
    if s == [] {
    } else if IsDelim(s[0]) {
      TokensAreFromLine(s[1..]);
      assert forall c :: c in s[1..] ==> c in s;
    } else {
      var n := RunLength(s);
      TokensAreFromLine(s[n..]);
      assert forall c :: c in s[n..] ==> c in s;
      assert forall c :: c in s[..n] ==> c in s;
    }
  }

  /** The words of the mixed-delimiter example and the delimiter runs around them form a layout. */
  lemma ExampleLayout()
    ensures IsLayout(["  ", "   ", "\t", "  "], ["ls", "-la", "/tmp"])
  {
  }

  /** Laying the example's words out between its delimiter runs gives back the example line. */
  lemma ExampleInterleave()
    ensures Interleave(["  ", "   ", "\t", "  "], ["ls", "-la", "/tmp"]) == "  ls   -la\t/tmp  "
  {
    var g: seq<seq<char>> := ["  ", "   ", "\t", "  "];
    var ts: seq<seq<char>> := ["ls", "-la", "/tmp"];
    assert Interleave(g[3..], ts[3..]) == "  ";
    assert Interleave(g[2..], ts[2..]) == "\t" + "/tmp" + "  ";
    assert Interleave(g[1..], ts[1..]) == "   " + "-la" + "\t/tmp  ";
    assert Interleave(g, ts) == "  " + "ls" + "   -la\t/tmp  ";
  }

  /** The mixed-delimiter example: runs of delimiters collapse to one separation. */
  lemma TokensExample()
    ensures Tokens("  ls   -la\t/tmp  ") == ["ls", "-la", "/tmp"]
  {
    var gaps: seq<seq<char>> := ["  ", "   ", "\t", "  "];
    var ts: seq<seq<char>> := ["ls", "-la", "/tmp"];
    ExampleLayout();
    ExampleInterleave();
    TokensOfLayout(gaps, ts);
  }

  /** One slot of the token array: NULL, or a token given by its start in the line and its length. */
  datatype Slot = Null | Token(start: nat, len: nat)

  /** Every token slot lies within the line. */
  ghost predicate SlotsInLine(line: seq<char>, slots: seq<Slot>)
  {
    forall i :: 0 <= i < |slots| && slots[i].Token? ==> slots[i].start + slots[i].len <= |line|
  }

  /** The argument vector a NULL-terminated token array denotes: the tokens before the first NULL. */
  function ArgvOf(line: seq<char>, slots: seq<Slot>): (r: seq<seq<char>>)
    requires SlotsInLine(line, slots)
    ensures |r| <= |slots|
    ensures forall i :: 0 <= i < |r| ==> slots[i].Token? && r[i] == line[slots[i].start .. slots[i].start + slots[i].len]
    ensures |r| < |slots| ==> slots[|r|] == Null
  {
    if slots == [] || slots[0].Null? then []
    else [line[slots[0].start .. slots[0].start + slots[0].len]] + ArgvOf(line, slots[1..])
  }

  /** A token array with n tokens and NULL at index n denotes exactly those n tokens. */
  lemma {:induction false} ArgvOfTerminated(line: seq<char>, slots: seq<Slot>, n: nat, ts: seq<seq<char>>)
    requires SlotsInLine(line, slots)
    requires n < |slots| && slots[n] == Null && |ts| == n
    requires forall i :: 0 <= i < n ==> slots[i].Token? && line[slots[i].start .. slots[i].start + slots[i].len] == ts[i]
    ensures ArgvOf(line, slots) == ts
  {
    if n > 0 {
      ArgvOfTerminated(line, slots[1..], n - 1, ts[1..]);
      assert ts == [ts[0]] + ts[1..];
    }
  }

  /** The string scanned by strtok starts at `from` and ends at its terminator at `stop`. */
  ghost predicate StrTokReady(a: seq<char>, from: nat, stop: nat)
  {
    from <= stop < |a| && a[stop] == Nul && forall k :: from <= k < stop ==> a[k] != Nul
  }

  /**
   * Where one call of strtok found its token, from the line `a` to the line
   * `b`: with no token the string held delimiters only and the saved
   * position is its end; otherwise only delimiters precede the token
   * a[start..start+len], it is a maximal run of non-delimiters, and the only
   * change to the line is that a delimiter right after it became '\0'.
   */
  ghost predicate StrTokSpan(a: seq<char>, b: seq<char>, from: nat, stop: nat, found: bool, start: nat, len: nat, next: nat)
    requires StrTokReady(a, from, stop)
  {
    && |b| == |a|
    && (!found ==> next == stop && forall k :: from <= k < stop ==> IsDelim(a[k]))
    && (found ==>
      && from <= start && 0 < len && start + len <= next <= stop
      && (forall k :: from <= k < start ==> IsDelim(a[k]))
      && (forall k :: start <= k < start + len ==> !IsDelim(a[k]))
      && (start + len == stop || IsDelim(a[start + len]))
      && next == (if IsDelim(a[start + len]) then start + len + 1 else start + len)
      && b[start + len] == Nul)
    && forall k :: 0 <= k < |b| ==> b[k] == a[k] || (found && k == start + len && IsDelim(a[k]) && b[k] == Nul)
  }

  /**
   * What one call of strtok did: the token it found, if any, is the first
   * token of the string, and the rest of the tokens lie after `next`.
   */
  ghost predicate StrTokResult(a: seq<char>, b: seq<char>, from: nat, stop: nat, found: bool, start: nat, len: nat, next: nat)
    requires StrTokReady(a, from, stop)
  {
    && StrTokSpan(a, b, from, stop, found, start, len, next)
    && (!found ==> Tokens(a[from..stop]) == [])
    && (found ==> Tokens(a[from..stop]) == [a[start..start + len]] + Tokens(a[next..stop]))
  }

  /**
   * One call of `strtok` with its saved position made explicit: scanning
   * starts at `from`, and the string there ends at the terminator at `stop`.
   * Leading delimiters are skipped; if the terminator is reached there is no
   * token. Otherwise the token runs to the next delimiter or terminator; a
   * delimiter there is overwritten with '\0' and scanning resumes after it,
   * a terminator there is left in place and scanning resumes at it.
   */
  method StrTok(line: array<char>, from: nat, ghost stop: nat) returns (found: bool, start: nat, len: nat, next: nat)
    requires StrTokReady(line[..], from, stop)
    modifies line
    ensures StrTokResult(old(line[..]), line[..], from, stop, found, start, len, next)
  {
    ghost var a := line[..];
    var i := SkipDelims(line, from, stop);
    if line[i] == Nul {
      StrTokNone(a, from, stop);
      return false, 0, 0, i;
    }
    start := i;
    var j := SpanToken(line, start, stop);
    len := j - start;
    if line[j] != Nul {
      line[j] := Nul;
      next := j + 1;
    } else {
      next := j;
    }
    StrTokFound(a, line[..], from, stop, start, j, next);
    found := true;
  }

  /** strspn with the delimiter set: the first index at or after `from` that is not a delimiter. */
  method SkipDelims(line: array<char>, from: nat, ghost stop: nat) returns (i: nat)
    requires StrTokReady(line[..], from, stop)
    ensures from <= i <= stop
    ensures forall k :: from <= k < i ==> IsDelim(line[k])
    ensures i < stop ==> !IsDelim(line[i])
    ensures line[i] == Nul <==> i == stop
  {
    i := from;
    while line[i] != Nul && IsDelim(line[i])
      invariant from <= i <= stop
      invariant forall k :: from <= k < i ==> IsDelim(line[k])
      decreases stop - i
    {
      i := i + 1;
    }
  }

  /** strcspn with the delimiter set: the end of the run of non-delimiters that starts at `start`. */
  method SpanToken(line: array<char>, start: nat, ghost stop: nat) returns (j: nat)
    requires StrTokReady(line[..], start, stop) && start < stop && !IsDelim(line[start])
    ensures start < j <= stop
    ensures forall k :: start <= k < j ==> !IsDelim(line[k])
    ensures j < stop ==> IsDelim(line[j])
    ensures line[j] == Nul <==> j == stop
  {
    j := start;
    while line[j] != Nul && !IsDelim(line[j])
      invariant start <= j <= stop
      invariant forall k :: start <= k < j ==> !IsDelim(line[k])
      decreases stop - j
    {
      j := j + 1;
    }
  }

  /** strtok without a token leaves the line as it was. */
  lemma StrTokNone(a: seq<char>, from: nat, stop: nat)
    requires StrTokReady(a, from, stop)
    requires forall k :: from <= k < stop ==> IsDelim(a[k])
    ensures StrTokResult(a, a, from, stop, false, 0, 0, stop)
  {
    TokensOfBlank(a, from, stop);
  }

  /** strtok with a token a[start..j] terminates it, overwriting the delimiter after it if there is one. */
  lemma StrTokFound(a: seq<char>, b: seq<char>, from: nat, stop: nat, start: nat, j: nat, next: nat)
    requires StrTokReady(a, from, stop)
    requires from <= start < j <= stop
    requires forall k :: from <= k < start ==> IsDelim(a[k])
    requires forall k :: start <= k < j ==> !IsDelim(a[k])
    requires j < stop ==> IsDelim(a[j])
    requires b == (if j < stop then a[j := Nul] else a)
    requires next == (if j < stop then j + 1 else j)
    ensures StrTokResult(a, b, from, stop, true, start, j - start, next)
  {
    NulIsNotDelim();
    TokensOfRun(a, from, start, j, stop);
  }

  /** strtok finds no token when only delimiters precede the terminator. */
  lemma TokensOfBlank(a: seq<char>, from: nat, stop: nat)
    requires from <= stop <= |a|
    requires forall k :: from <= k < stop ==> IsDelim(a[k])
    ensures Tokens(a[from..stop]) == []
  {
    TokensSkipBlank(a[from..stop], []);
    assert a[from..stop] + [] == a[from..stop];
  }

  /** strtok's token is the run after the skipped delimiters; the rest of the string holds the other tokens. */
  lemma TokensOfRun(a: seq<char>, from: nat, i: nat, j: nat, stop: nat)
    requires from <= i < j <= stop <= |a|
    requires forall k :: from <= k < i ==> IsDelim(a[k])
    requires forall k :: i <= k < j ==> !IsDelim(a[k])
    requires j < stop ==> IsDelim(a[j])
    ensures Tokens(a[from..stop]) == [a[i..j]] + Tokens(a[(if j < stop then j + 1 else j)..stop])
  {
    var word, rest := a[i..j], a[j..stop];
    assert a[from..stop] == a[from..i] + (word + rest);
    TokensSkipBlank(a[from..i], word + rest);
    TokensWordFirst(word, rest);
    if j < stop {
      assert rest[0] == a[j];
      assert rest[1..] == a[j + 1..stop];
    }
  }

  /** Counting one more token keeps the capacity rule, growing by one step when the array is full. */
  lemma SlotCapacityStep(capacity: nat, count: nat)
    requires CapacityFor(capacity, count, TokBufSize)
    ensures count + 1 < capacity ==> CapacityFor(capacity, count + 1, TokBufSize)
    ensures count + 1 >= capacity ==> CapacityFor(capacity + TokBufSize, count + 1, TokBufSize)
  {
  }

  /** realloc of the token array to a larger size; the slots it adds are NULL. */
  method GrowSlots(tokens: array<Slot>, size: nat) returns (grown: array<Slot>)
    requires tokens.Length <= size
    ensures fresh(grown)
    ensures grown.Length == size
    ensures grown[..tokens.Length] == tokens[..]
    ensures forall k :: tokens.Length <= k < size ==> grown[k] == Null
  {
    grown := new Slot[size](_ => Null);
    forall k | 0 <= k < tokens.Length {
      grown[k] := tokens[k];
    }
  }

  /** The line differs from the original only where a delimiter was overwritten with '\0'. */
  ghost predicate OnlyDelimsCleared(orig: seq<char>, line: seq<char>)
  {
    |line| == |orig| && forall k :: 0 <= k < |line| ==> line[k] == orig[k] || (IsDelim(orig[k]) && line[k] == Nul)
  }

  /** Some token in `slots` ends at index k. */
  ghost predicate EndsToken(slots: seq<Slot>, k: nat)
  {
    exists i :: 0 <= i < |slots| && slots[i].Token? && slots[i].start + slots[i].len == k
  }

  /** The line with '\0' written at the end of each token in `slots`, in order. */
  function ClearEnds(line: seq<char>, slots: seq<Slot>): (r: seq<char>)
    requires forall i :: 0 <= i < |slots| && slots[i].Token? ==> slots[i].start + slots[i].len < |line|
    ensures |r| == |line|
  {
    if slots == [] then line
    else
      var last := slots[|slots| - 1];
      var earlier := ClearEnds(line, slots[..|slots| - 1]);
      if last.Token? then earlier[last.start + last.len := Nul] else earlier
  }

  /** The cleared line holds '\0' exactly at the token ends and the original character everywhere else. */
  lemma {:induction false} ClearEndsChars(line: seq<char>, slots: seq<Slot>)
    requires forall i :: 0 <= i < |slots| && slots[i].Token? ==> slots[i].start + slots[i].len < |line|
    ensures forall k :: 0 <= k < |line| ==> ClearEnds(line, slots)[k] == if EndsToken(slots, k) then Nul else line[k]
  {
    if slots != [] {
      var m := |slots| - 1;
      var init := slots[..m];
      ClearEndsChars(line, init);
      forall k | 0 <= k < |line|
        ensures EndsToken(slots, k) <==> EndsToken(init, k) || (slots[m].Token? && slots[m].start + slots[m].len == k)
      {
        if EndsToken(init, k) {
          var i :| 0 <= i < |init| && init[i].Token? && init[i].start + init[i].len == k;
          assert slots[i] == init[i];
        }
        if EndsToken(slots, k) {
          var i :| 0 <= i < |slots| && slots[i].Token? && slots[i].start + slots[i].len == k;
          if i < m {
            assert init[i] == slots[i];
          }
        }
      }
    }
  }

  /**
   * The slot is a maximal run of non-delimiters of the C string orig[..stop]:
   * it starts at the beginning of the string or after a delimiter, holds no
   * delimiter, and ends at a delimiter or the terminator.
   */
  ghost predicate IsRun(orig: seq<char>, stop: nat, s: Slot)
  {
    && stop < |orig|
    && s.Token? && 0 < s.len && s.start + s.len <= stop
    && (s.start == 0 || IsDelim(orig[s.start - 1]))
    && (forall k :: s.start <= k < s.start + s.len ==> !IsDelim(orig[k]))
    && (s.start + s.len == stop || IsDelim(orig[s.start + s.len]))
  }

  /** The slots are maximal runs of orig[..stop], left to right, each ending before the next begins. */
  ghost predicate RunsInOrder(orig: seq<char>, stop: nat, slots: seq<Slot>)
  {
    && stop < |orig|
    && (forall i :: 0 <= i < |slots| ==> IsRun(orig, stop, slots[i]))
    && forall i, j :: 0 <= i < j < |slots| ==> slots[i].start + slots[i].len < slots[j].start
  }

  /**
   * Where the tokens found so far lie: `placed` are maximal runs in order,
   * each ending before `cursor` or, for a token ended by the terminator, at
   * it; `cursor` is at the start, at the terminator or just after a
   * delimiter; and the line is the original with '\0' at each token's end.
   */
  ghost predicate Placed(orig: seq<char>, line: seq<char>, stop: nat, cursor: nat, placed: seq<Slot>)
  {
    && cursor <= stop
    && RunsInOrder(orig, stop, placed)
    && (forall i :: 0 <= i < |placed| ==>
          placed[i].start + placed[i].len < cursor || placed[i].start + placed[i].len == cursor == stop)
    && (cursor == 0 || cursor == stop || IsDelim(orig[cursor - 1]))
    && line == ClearEnds(orig, placed)
  }

  /** A maximal run after every placed token extends the runs in order. */
  lemma RunsExtend(orig: seq<char>, stop: nat, cursor: nat, placed: seq<Slot>, start: nat, len: nat)
    requires RunsInOrder(orig, stop, placed)
    requires forall i :: 0 <= i < |placed| ==>
               placed[i].start + placed[i].len < cursor || placed[i].start + placed[i].len == cursor == stop
    requires cursor <= start < stop
    requires IsRun(orig, stop, Token(start, len))
    ensures RunsInOrder(orig, stop, placed + [Token(start, len)])
  {
    var placed' := placed + [Token(start, len)];
    forall i | 0 <= i < |placed'|
      ensures placed'[i] == if i < |placed| then placed[i] else Token(start, len)
    {
    }
    forall i, j | 0 <= i < j < |placed'|
      ensures placed'[i].start + placed'[i].len < placed'[j].start
    {
      if j == |placed| {
        assert placed'[i] == placed[i];
      } else {
        assert placed'[i] == placed[i] && placed'[j] == placed[j];
      }
    }
  }

  /** After a strtok call every token found so far ends before the new position, or at the terminator. */
  lemma EndsBefore(stop: nat, cursor: nat, placed: seq<Slot>, start: nat, len: nat, next: nat)
    requires forall i :: 0 <= i < |placed| ==> placed[i].Token?
    requires forall i :: 0 <= i < |placed| ==>
               placed[i].start + placed[i].len < cursor || placed[i].start + placed[i].len == cursor == stop
    requires cursor <= start < start + len <= stop && start + len <= next
    requires start + len < next || start + len == next == stop
    ensures forall i :: 0 <= i < |placed| + 1 ==>
      (placed + [Token(start, len)])[i].start + (placed + [Token(start, len)])[i].len < next
      || (placed + [Token(start, len)])[i].start + (placed + [Token(start, len)])[i].len == next == stop
  {
    var placed' := placed + [Token(start, len)];
    forall i | 0 <= i < |placed'|
      ensures placed'[i].start + placed'[i].len < next || placed'[i].start + placed'[i].len == next == stop
    {
      if i < |placed| {
        assert placed'[i] == placed[i];
      }
    }
  }

  /** Clearing one more token's end is one more '\0' in the line. */
  lemma ClearEndsExtend(line: seq<char>, slots: seq<Slot>, start: nat, len: nat)
    requires forall i :: 0 <= i < |slots| && slots[i].Token? ==> slots[i].start + slots[i].len < |line|
    requires start + len < |line|
    ensures ClearEnds(line, slots + [Token(start, len)]) == ClearEnds(line, slots)[start + len := Nul]
  {
    assert (slots + [Token(start, len)])[..|slots|] == slots;
  }

  /** A line that differs from another at most at p, where it holds '\0', is the other with '\0' at p. */
  lemma NulAt(a: seq<char>, b: seq<char>, p: nat)
    requires |b| == |a| && p < |b| && b[p] == Nul
    requires forall k :: 0 <= k < |b| ==> b[k] == a[k] || k == p
    ensures b == a[p := Nul]
  {
  }

  /** A strtok call adds the token it finds, if any, to the tokens placed so far. */
  lemma PlaceNext(orig: seq<char>, before: seq<char>, after: seq<char>, stop: nat, cursor: nat,
                  placed: seq<Slot>, found: bool, start: nat, len: nat, next: nat)
    requires Untouched(orig, before, stop, cursor)
    requires Placed(orig, before, stop, cursor, placed)
    requires StrTokReady(before, cursor, stop)
    requires StrTokSpan(before, after, cursor, stop, found, start, len, next)
    ensures found ==> Placed(orig, after, stop, next, placed + [Token(start, len)])
    ensures !found ==> Placed(orig, after, stop, next, placed)
  {
    if found {
      var end := start + len;
      assert cursor <= start && 0 < len && end <= stop && end <= next;
      assert end < next || end == next == stop by {
        NulIsNotDelim();
      }
      assert next == 0 || next == stop || IsDelim(orig[next - 1]);
      assert start == 0 || IsDelim(orig[start - 1]) by {
        if start > cursor {
          assert before[start - 1] == orig[start - 1];
        }
      }
      assert forall k :: start <= k < end ==> !IsDelim(orig[k]) by {
        assert forall k :: start <= k < end ==> before[k] == orig[k];
      }
      assert end == stop || IsDelim(orig[end]) by {
        assert before[end] == orig[end];
      }
      assert IsRun(orig, stop, Token(start, len));
      RunsExtend(orig, stop, cursor, placed, start, len);
      EndsBefore(stop, cursor, placed, start, len, next);
      NulAt(before, after, end);
      ClearEndsExtend(orig, placed, start, len);
    } else {
      assert after == before;
    }
  }

  /**
   * The line as lsh_split_line scans it: the original line holds its C
   * string orig[..stop], and only delimiters may have been overwritten,
   * all of them before `cursor`.
   */
  ghost predicate Untouched(orig: seq<char>, line: seq<char>, stop: nat, cursor: nat)
  {
    && cursor <= stop < |orig|
    && orig[stop] == Nul && (forall k :: 0 <= k < stop ==> orig[k] != Nul)
    && OnlyDelimsCleared(orig, line)
    && (forall k :: cursor <= k < |line| ==> line[k] == orig[k])
  }

  /**
   * The state of lsh_split_line between two strtok calls: the line is
   * untouched from `cursor` on; `produced` are the tokens recorded so far
   * and the rest follow `cursor`.
   */
  ghost predicate Between(orig: seq<char>, line: seq<char>, stop: nat, cursor: nat, produced: seq<seq<char>>)
  {
    && Untouched(orig, line, stop, cursor)
    && Tokens(orig[..stop]) == produced + Tokens(orig[cursor..stop])
  }

  /**
   * The state of lsh_split_line at the test of its loop: as Between, with
   * the token just found (if any) still to be recorded.
   */
  ghost predicate Scanned(orig: seq<char>, line: seq<char>, stop: nat, cursor: nat, produced: seq<seq<char>>,
                          found: bool, start: nat, len: nat)
  {
    && Untouched(orig, line, stop, cursor)
    && (!found ==> Tokens(orig[..stop]) == produced)
    && (found ==>
      && 0 < len && start + len <= cursor && line[start + len] == Nul
      && line[start..start + len] == orig[start..start + len]
      && Tokens(orig[..stop]) == produced + [orig[start..start + len]] + Tokens(orig[cursor..stop]))
  }

  lemma BetweenReady(orig: seq<char>, line: seq<char>, stop: nat, cursor: nat, produced: seq<seq<char>>)
    requires Between(orig, line, stop, cursor, produced)
    ensures StrTokReady(line, cursor, stop)
  {
  }

  /** A strtok call from a state between two calls leads to the state at the loop test. */
  lemma ScanAdvance(orig: seq<char>, before: seq<char>, after: seq<char>, stop: nat, cursor: nat, produced: seq<seq<char>>,
                    found: bool, start: nat, len: nat, next: nat)
    requires Between(orig, before, stop, cursor, produced)
    requires StrTokReady(before, cursor, stop)
    requires StrTokResult(before, after, cursor, stop, found, start, len, next)
    ensures Scanned(orig, after, stop, next, produced, found, start, len)
    ensures forall k :: 0 <= k < |after| ==> after[k] == before[k] || (cursor <= k && IsDelim(before[k]))
  {
    NulIsNotDelim();
    assert before[cursor..stop] == orig[cursor..stop];
    if found {
      assert before[next..stop] == orig[next..stop];
      assert before[start..start + len] == orig[start..start + len];
      assert after[start..start + len] == before[start..start + len];
      assert produced + [orig[start..start + len]] + Tokens(orig[next..stop])
          == produced + ([orig[start..start + len]] + Tokens(orig[next..stop]));
    } else {
      assert produced + [] == produced;
    }
  }

  /** Recording the token found moves the state back between two calls. */
  lemma ScanRecord(orig: seq<char>, line: seq<char>, stop: nat, cursor: nat, produced: seq<seq<char>>, start: nat, len: nat)
    requires Scanned(orig, line, stop, cursor, produced, true, start, len)
    ensures Between(orig, line, stop, cursor, produced + [orig[start..start + len]])
  {
  }

  /**
   * The first |slots| tokens are recorded: each slot is a token whose text in
   * the line is texts[i], followed by '\0' at an index no greater than bound.
   */
  ghost predicate Recorded(line: seq<char>, slots: seq<Slot>, texts: seq<seq<char>>, bound: nat)
  {
    && |slots| == |texts|
    && forall i :: 0 <= i < |slots| ==>
      && slots[i].Token?
      && slots[i].start + slots[i].len <= bound
      && slots[i].start + slots[i].len < |line|
      && line[slots[i].start + slots[i].len] == Nul
      && line[slots[i].start .. slots[i].start + slots[i].len] == texts[i]
  }

  lemma RecordedExtend(line: seq<char>, slots: seq<Slot>, texts: seq<seq<char>>, bound: nat, start: nat, len: nat)
    requires Recorded(line, slots, texts, bound)
    requires start + len <= bound && start + len < |line| && line[start + len] == Nul
    ensures Recorded(line, slots + [Token(start, len)], texts + [line[start..start + len]], bound)
  {
    var slots', texts' := slots + [Token(start, len)], texts + [line[start..start + len]];
    forall i | 0 <= i < |slots'|
      ensures slots'[i].Token? && slots'[i].start + slots'[i].len <= bound
      ensures slots'[i].start + slots'[i].len < |line| && line[slots'[i].start + slots'[i].len] == Nul
      ensures line[slots'[i].start .. slots'[i].start + slots'[i].len] == texts'[i]
    {
      if i < |slots| {
        assert slots'[i] == slots[i] && texts'[i] == texts[i];
      }
    }
  }

  /** A later scan, which changes the line only at delimiters at or after the bound, keeps what is recorded. */
  lemma RecordedKeep(before: seq<char>, after: seq<char>, slots: seq<Slot>, texts: seq<seq<char>>, bound: nat, bound': nat)
    requires Recorded(before, slots, texts, bound) && bound <= bound'
    requires |after| == |before|
    requires forall k :: 0 <= k < |after| ==> after[k] == before[k] || (bound <= k && IsDelim(before[k]))
    ensures Recorded(after, slots, texts, bound')
  {
    NulIsNotDelim();
    forall i | 0 <= i < |slots|
      ensures after[slots[i].start .. slots[i].start + slots[i].len] == texts[i]
      ensures after[slots[i].start + slots[i].len] == Nul
    {
      var a, b := slots[i].start, slots[i].start + slots[i].len;
      assert after[a..b] == before[a..b];
    }
  }

  /** Recorded tokens followed by NULL slots denote the recorded texts. */
  lemma RecordedArgv(line: seq<char>, slots: seq<Slot>, n: nat, texts: seq<seq<char>>, bound: nat)
    requires n < |slots| && Recorded(line, slots[..n], texts, bound)
    requires forall i :: n <= i < |slots| ==> slots[i] == Null
    ensures SlotsInLine(line, slots)
    ensures ArgvOf(line, slots) == texts
  {
    assert forall i :: 0 <= i < n ==> slots[i] == slots[..n][i];
    ArgvOfTerminated(line, slots, n, texts);
  }

  /**
   * The state of lsh_split_line at the test of its loop: the line as
   * scanned up to `cursor`; the first `position` slots hold the tokens
   * recorded so far and the others are NULL; and the tokens found so far,
   * the one just found included, lie where the line's runs are.
   */
  ghost predicate SplitState(orig: seq<char>, line: seq<char>, stop: nat, cursor: nat, produced: seq<seq<char>>,
                             found: bool, start: nat, len: nat, slots: seq<Slot>, position: nat)
  {
    && position <= |slots|
    && Scanned(orig, line, stop, cursor, produced, found, start, len)
    && Recorded(line, slots[..position], produced, cursor)
    && (forall i :: position <= i < |slots| ==> slots[i] == Null)
    && (found ==> Placed(orig, line, stop, cursor, slots[..position] + [Token(start, len)]))
    && (!found ==> Placed(orig, line, stop, cursor, slots[..position]))
  }

  /** Recording the token found extends the recorded slots and makes strtok ready for its next call. */
  lemma RecordFound(orig: seq<char>, line: seq<char>, stop: nat, cursor: nat, produced: seq<seq<char>>,
                    start: nat, len: nat, slots: seq<Slot>, position: nat)
    requires SplitState(orig, line, stop, cursor, produced, true, start, len, slots, position)
    ensures Recorded(line, slots[..position] + [Token(start, len)], produced + [orig[start..start + len]], cursor)
    ensures Between(orig, line, stop, cursor, produced + [orig[start..start + len]])
    ensures StrTokReady(line, cursor, stop)
    ensures Placed(orig, line, stop, cursor, slots[..position] + [Token(start, len)])
    ensures forall i :: position <= i < |slots| ==> slots[i] == Null
  {
    RecordedExtend(line, slots[..position], produced, cursor, start, len);
    ScanRecord(orig, line, stop, cursor, produced, start, len);
    BetweenReady(orig, line, stop, cursor, produced + [orig[start..start + len]]);
  }

  /** The next strtok call leads back to the state at the loop test. */
  lemma ScanNext(orig: seq<char>, before: seq<char>, after: seq<char>, stop: nat, cursor: nat,
                 produced: seq<seq<char>>, recorded: seq<Slot>, found: bool, start: nat, len: nat, next: nat,
                 slots: seq<Slot>, position: nat)
    requires Between(orig, before, stop, cursor, produced)
    requires Recorded(before, recorded, produced, cursor)
    requires Placed(orig, before, stop, cursor, recorded)
    requires StrTokReady(before, cursor, stop)
    requires StrTokResult(before, after, cursor, stop, found, start, len, next)
    requires position <= |slots| && slots[..position] == recorded
    requires forall i :: position <= i < |slots| ==> slots[i] == Null
    ensures SplitState(orig, after, stop, next, produced, found, start, len, slots, position)
  {
    ScanAdvance(orig, before, after, stop, cursor, produced, found, start, len, next);
    RecordedKeep(before, after, recorded, produced, cursor, next);
    PlaceNext(orig, before, after, stop, cursor, recorded, found, start, len, next);
  }

  /** Before the first strtok call the whole C string of the line is still to be split. */
  lemma SplitStart(orig: seq<char>)
    requires Nul in orig
    ensures Between(orig, orig, |CStr(orig)|, 0, [])
    ensures StrTokReady(orig, 0, |CStr(orig)|)
    ensures Placed(orig, orig, |CStr(orig)|, 0, [])
  {
    var stop := |CStr(orig)|;
    assert orig[..stop] == CStr(orig);
    assert orig[0..stop] == orig[..stop];
  }

  /**
   * When strtok finds no more tokens, the recorded slots followed by NULL are
   * the tokens of the C string, at its runs, with '\0' after each.
   */
  lemma SplitDone(orig: seq<char>, line: seq<char>, cursor: nat, produced: seq<seq<char>>, start: nat, len: nat,
                  slots: seq<Slot>, n: nat)
    requires Nul in orig
    requires SplitState(orig, line, |CStr(orig)|, cursor, produced, false, start, len, slots, n)
    requires n < |slots|
    ensures slots[n] == Null
    ensures Recorded(line, slots[..n], Tokens(CStr(orig)), |line|)
    ensures SlotsInLine(line, slots)
    ensures ArgvOf(line, slots) == Tokens(CStr(orig))
    ensures OnlyDelimsCleared(orig, line)
    ensures RunsInOrder(orig, |CStr(orig)|, slots[..n])
    ensures line == ClearEnds(orig, slots[..n])
  {
    assert orig[..|CStr(orig)|] == CStr(orig);
    RecordedKeep(line, line, slots[..n], produced, cursor, |line|);
    RecordedArgv(line, slots, n, produced, |line|);
  }

  /**
   * Stores one token pointer at `position` and counts it; when the count
   * reaches the capacity the array is reallocated one step larger.
   */
  method PushSlot(tokens: array<Slot>, position: nat, slot: Slot) returns (grown: array<Slot>, count: nat)
    requires position < tokens.Length && CapacityFor(tokens.Length, position, TokBufSize)
    requires forall i :: position <= i < tokens.Length ==> tokens[i] == Null
    modifies tokens
    ensures grown == tokens || fresh(grown)
    ensures count == position + 1
    ensures grown.Length == if count < tokens.Length then tokens.Length else tokens.Length + TokBufSize
    ensures CapacityFor(grown.Length, count, TokBufSize)
    ensures grown[..count] == old(tokens[..position]) + [slot]
    ensures forall i :: count <= i < grown.Length ==> grown[i] == Null
  {
    tokens[position] := slot;
    count := position + 1;
    SlotCapacityStep(tokens.Length, position);
    grown := tokens;
    if count >= tokens.Length {
      grown := GrowSlots(tokens, tokens.Length + TokBufSize);
    }
  }

  /**
   * One turn of lsh_split_line's loop: the token found is stored at
   * `position` and counted, the array grows by one step when it is full,
   * and strtok is called again from `cursor`.
   */
  method SplitStep(line: array<char>, tokens: array<Slot>, position: nat, cursor: nat, start: nat, len: nat,
                   ghost orig: seq<char>, ghost stop: nat, ghost produced: seq<seq<char>>)
    returns (grown: array<Slot>, count: nat, found: bool, start': nat, len': nat, next: nat)
    requires CapacityFor(tokens.Length, position, TokBufSize)
    requires SplitState(orig, line[..], stop, cursor, produced, true, start, len, tokens[..], position)
    modifies line, tokens
    ensures grown == tokens || fresh(grown)
    ensures CapacityFor(grown.Length, count, TokBufSize)
    ensures cursor < next || (!found && cursor == next)
    ensures SplitState(orig, line[..], stop, next, produced + [orig[start..start + len]], found, start', len', grown[..], count)
  {
    ghost var cur := line[..];
    ghost var recorded := tokens[..position] + [Token(start, len)];
    RecordFound(orig, cur, stop, cursor, produced, start, len, tokens[..], position);
    grown, count := PushSlot(tokens, position, Token(start, len));
    assert line[..] == cur;
    found, start', len', next := StrTok(line, cursor, stop);
    ScanNext(orig, cur, line[..], stop, cursor, produced + [orig[start..start + len]], recorded,
             found, start', len', next, grown[..], count);
  }

  /**
   * lsh_split_line: splits the C string in `line` into its tokens in place.
   * On return tokens[..n] are the tokens of the line, each at its run of
   * non-delimiters, in order; tokens[n] is NULL; and the only change to the
   * line is a '\0' at the end of each token.
   */
  method SplitLine(line: array<char>) returns (tokens: array<Slot>, n: nat)
    requires Nul in line[..]
    modifies line
    ensures fresh(tokens)
    ensures n < tokens.Length && tokens[n] == Null
    ensures CapacityFor(tokens.Length, n, TokBufSize)
    ensures Recorded(line[..], tokens[..n], Tokens(CStr(old(line[..]))), line.Length)
    ensures SlotsInLine(line[..], tokens[..])
    ensures ArgvOf(line[..], tokens[..]) == Tokens(CStr(old(line[..])))
    ensures OnlyDelimsCleared(old(line[..]), line[..])
    ensures RunsInOrder(old(line[..]), |CStr(old(line[..]))|, tokens[..n])
    ensures line[..] == ClearEnds(old(line[..]), tokens[..n])
  {
    ghost var orig := line[..];
    ghost var stop := |CStr(orig)|;
    ghost var produced: seq<seq<char>> := [];

    var bufsize: nat := TokBufSize;
    var position: nat := 0;
    tokens := new Slot[bufsize](_ => Null);

    assert StrTokReady(orig, 0, stop) by { SplitStart(orig); }
    var found, start, len, cursor := StrTok(line, 0, stop);
    assert SplitState(orig, line[..], stop, cursor, produced, found, start, len, tokens[..], position) by {
      SplitStart(orig);
      ScanNext(orig, orig, line[..], stop, 0, [], [], found, start, len, cursor, tokens[..], 0);
    }
    while found
      invariant tokens.Length == bufsize && fresh(tokens)
      invariant CapacityFor(bufsize, position, TokBufSize)
      invariant SplitState(orig, line[..], stop, cursor, produced, found, start, len, tokens[..], position)
      decreases stop - cursor + (if found then 1 else 0)
    {
      var next;
      ghost var token := orig[start..start + len];
      tokens, position, found, start, len, next := SplitStep(line, tokens, position, cursor, start, len, orig, stop, produced);
      produced := produced + [token];
      bufsize := tokens.Length;
      cursor := next;
    }
    ghost var slots := tokens[..];
    tokens[position] := Null;
    assert tokens[..] == slots;
    n := position;
    SplitDone(orig, line[..], cursor, produced, start, len, tokens[..], n);
  }
}
