/**
 * The string operations of JavaScript that the loader's line tokenizer is built from
 * (src/index.js:347-354 and 396-403): `split` on a one-character separator or on the
 * character class `/[ \t]/`, `trim`, dropping the empty tokens, and `join`.
 */
module Text {

  import opened Wrappers

  /** The code points ECMAScript counts as WhiteSpace or LineTerminator: what `trim` removes. */
  predicate IsTrimSpace(c: char) {
    || c == ' ' || c == '\t' || c == '\n' || c == '\r'
    || c == '\U{000B}' || c == '\U{000C}' || c == '\U{00A0}' || c == '\U{1680}'
    || ('\U{2000}' <= c <= '\U{200A}')
    || c == '\U{2028}' || c == '\U{2029}' || c == '\U{202F}' || c == '\U{205F}'
    || c == '\U{3000}' || c == '\U{FEFF}'
  }

  /** The characters `/[ \t]/` splits a trimmed line on. */
  const Blanks: set<char> := {' ', '\t'}

  /** The index of the first character at or after `from` that is not white space, or `|s|`. */
  function Leading(s: string, from: nat): (i: nat)
    requires from <= |s|
    ensures from <= i <= |s|
    ensures forall k :: from <= k < i ==> IsTrimSpace(s[k])
    ensures i < |s| ==> !IsTrimSpace(s[i])
    decreases |s| - from
  {
    if from < |s| && IsTrimSpace(s[from]) then Leading(s, from + 1) else from
  }

  /**
   * The end of `s[lo..hi]` once its trailing white space is dropped: the index just after the
   * last character before `hi` and at or after `lo` that is not white space, or `lo`.
   */
  function Trailing(s: string, lo: nat, hi: nat): (j: nat)
    requires lo <= hi <= |s|
    ensures lo <= j <= hi
    ensures forall k :: j <= k < hi ==> IsTrimSpace(s[k])
    ensures lo < j ==> !IsTrimSpace(s[j - 1])
    decreases hi
  {
    if lo < hi && IsTrimSpace(s[hi - 1]) then Trailing(s, lo, hi - 1) else hi
  }

  /**
   * `String.prototype.trim`: the slice of the line between its leading and its trailing white
   * space; empty exactly for an all-blank line, and otherwise neither starting nor ending with
   * white space.
   */
  function Trim(s: string): (r: string)
    ensures exists i, j :: 0 <= i <= j <= |s| && r == s[i..j]
              && (forall k :: 0 <= k < i ==> IsTrimSpace(s[k]))
              && (forall k :: j <= k < |s| ==> IsTrimSpace(s[k]))
    ensures r == [] <==> forall k :: 0 <= k < |s| ==> IsTrimSpace(s[k])
    ensures r != [] ==> !IsTrimSpace(r[0]) && !IsTrimSpace(r[|r| - 1])
  {
    var i := Leading(s, 0);
    var j := Trailing(s, i, |s|);
    assert i < j ==> s[i..j][0] == s[i] && s[i..j][j - i - 1] == s[j - 1];
    assert i < |s| ==> i < j;
    s[i..j]
  }

  /** A line that neither starts nor ends with white space is its own trim. */
  lemma TrimKeeps(s: string)
    requires s != [] && !IsTrimSpace(s[0]) && !IsTrimSpace(s[|s| - 1])
    ensures Trim(s) == s
  {
    assert Leading(s, 0) == 0;
    assert Trailing(s, 0, |s|) == |s|;
    assert s[0..|s|] == s;
  }

  /**
   * `s.split(sep)` where `sep` matches any one character of `seps`: at least one piece, and no
   * piece holds a separator (SplitCount counts the pieces).
   */
  function Split(s: string, seps: set<char>): (r: seq<string>)
    ensures |r| >= 1
    ensures forall k, i :: 0 <= k < |r| && 0 <= i < |r[k]| ==> r[k][i] !in seps
    decreases |s|
  {
    if s == [] then [[]]
    else if s[0] in seps then [[]] + Split(s[1..], seps)
    else
      var rest := Split(s[1..], seps);
      [[s[0]] + rest[0]] + rest[1..]
  }

  /** `filter(e => e.length > 0)` over a list of strings. */
  function NonEmpty(ps: seq<string>): (r: seq<string>)
    ensures |r| <= |ps|
    ensures forall k :: 0 <= k < |r| ==> r[k] != [] && r[k] in ps
  {
    if ps == [] then []
    else if ps[0] == [] then NonEmpty(ps[1..])
    else [ps[0]] + NonEmpty(ps[1..])
  }

  /** The tokens of a trimmed line: `trimmed.split(/[ \t]/).filter(e => e.length > 0)`. */
  function Fields(s: string): (r: seq<string>)
    ensures forall k :: 0 <= k < |r| ==> r[k] != []
    ensures forall k, i :: 0 <= k < |r| && 0 <= i < |r[k]| ==> r[k][i] !in Blanks
  {
    var ps := Split(s, Blanks);
    var r := NonEmpty(ps);
    assert forall k :: 0 <= k < |r| ==> exists j :: 0 <= j < |ps| && r[k] == ps[j];
    r
  }

  /** `Array.prototype.join(sep)`: the empty list joins to the empty string. */
  function Join(parts: seq<string>, sep: string): string {
    if |parts| == 0 then []
    else if |parts| == 1 then parts[0]
    else parts[0] + sep + Join(parts[1..], sep)
  }

  /** Non-empty pieces joined start with the first piece's first character and end with the
   *  last piece's last character. */
  lemma {:induction false} JoinEnds(parts: seq<string>, sep: string)
    requires parts != [] && forall k :: 0 <= k < |parts| ==> parts[k] != []
    ensures var s := Join(parts, sep); var last := parts[|parts| - 1];
            s != [] && s[0] == parts[0][0] && s[|s| - 1] == last[|last| - 1]
    decreases |parts|
  {
    if |parts| > 1 {
      var rest := parts[1..];
      assert forall k :: 0 <= k < |rest| ==> rest[k] == parts[k + 1];
      JoinEnds(rest, sep);
    }
  }

  /** The pieces joined without separators. */
  function Concat(parts: seq<string>): string {
    if parts == [] then [] else parts[0] + Concat(parts[1..])
  }

  /** `s` with every character of `seps` deleted. */
  function Without(s: string, seps: set<char>): string {
    if s == [] then []
    else (if s[0] in seps then [] else [s[0]]) + Without(s[1..], seps)
  }

  /** A piece that holds no separator. */
  predicate Plain(s: string, seps: set<char>) {
    forall i :: 0 <= i < |s| ==> s[i] !in seps
  }

  lemma {:induction false} JoinCons(a: char, p: string, ps: seq<string>, sep: string)
    ensures Join([[a] + p] + ps, sep) == [a] + Join([p] + ps, sep)
  {
    if ps != [] {
      assert ([[a] + p] + ps)[1..] == ps;
      assert ([p] + ps)[1..] == ps;
    }
  }

  /** Splitting on one character and joining the pieces with it gives the text back. */
  lemma {:induction false} SplitJoin(s: string, c: char)
    ensures Join(Split(s, {c}), [c]) == s
    decreases |s|
  {
    if s == [] {
    } else if s[0] == c {
      SplitJoin(s[1..], c);
      var rest := Split(s[1..], {c});
      assert ([[]] + rest)[1..] == rest;
      assert Join([[]] + rest, [c]) == [] + [c] + Join(rest, [c]);
    } else {
      SplitJoin(s[1..], c);
      var rest := Split(s[1..], {c});
      assert rest == [rest[0]] + rest[1..];
      JoinCons(s[0], rest[0], rest[1..], [c]);
      assert s == [s[0]] + s[1..];
    }
  }

  /** `split` gives one piece more than there are separators in the text. */
  lemma {:induction false} SplitCount(s: string, seps: set<char>)
    ensures |Split(s, seps)| == 1 + (|s| - |Without(s, seps)|)
    decreases |s|
  {
    if s != [] {
      SplitCount(s[1..], seps);
    }
  }

  /** A piece free of separators followed by a separator is split off as it is. */
  lemma {:induction false} SplitAfterPiece(a: string, c: char, rest: string, seps: set<char>)
    requires Plain(a, seps) && c in seps
    ensures Split(a + [c] + rest, seps) == [a] + Split(rest, seps)
    decreases |a|
  {
    if a == [] {
      assert [] + [c] + rest == [c] + rest;
      assert ([c] + rest)[1..] == rest;
    } else {
      var s := a + [c] + rest;
      assert s[0] == a[0] && s[1..] == a[1..] + [c] + rest;
      SplitAfterPiece(a[1..], c, rest, seps);
      assert [a[0]] + a[1..] == a;
    }
  }

  /** A piece free of separators is not split at all. */
  lemma {:induction false} SplitPlain(a: string, seps: set<char>)
    requires Plain(a, seps)
    ensures Split(a, seps) == [a]
    decreases |a|
  {
    if a != [] {
      SplitPlain(a[1..], seps);
      assert [a[0]] + a[1..] == a;
    }
  }

  /** Dropping the empty tokens keeps a list that holds none. */
  lemma {:induction false} NonEmptyKeeps(ps: seq<string>)
    requires forall k :: 0 <= k < |ps| ==> ps[k] != []
    ensures NonEmpty(ps) == ps
  {
    if ps != [] {
      NonEmptyKeeps(ps[1..]);
    }
  }

  /** Splitting tokens joined with single spaces gives the tokens back. */
  lemma {:induction false} SplitJoinPlain(ts: seq<string>)
    requires |ts| >= 1
    requires forall k :: 0 <= k < |ts| ==> Plain(ts[k], Blanks)
    ensures Split(Join(ts, " "), Blanks) == ts
  {
    if |ts| == 1 {
      SplitPlain(ts[0], Blanks);
    } else {
      SplitJoinPlain(ts[1..]);
      SplitAfterPiece(ts[0], ' ', Join(ts[1..], " "), Blanks);
      assert ts[0] + " " + Join(ts[1..], " ") == ts[0] + [' '] + Join(ts[1..], " ");
      assert [ts[0]] + ts[1..] == ts;
    }
  }

  /**
   * Round trip of a name: `tokens.slice(1).join(" ")` re-tokenizes to the same tokens, so a
   * `g`, `o`, `usemtl`, `mtllib` or `newmtl` name loses nothing but the original spacing.
   */
  lemma FieldsJoin(ts: seq<string>)
    requires forall k :: 0 <= k < |ts| ==> ts[k] != [] && Plain(ts[k], Blanks)
    ensures Fields(Join(ts, " ")) == ts
  {
    if ts == [] {
      assert Split([], Blanks) == [[]];
    } else {
      SplitJoinPlain(ts);
      NonEmptyKeeps(ts);
    }
  }

  /** A separator cuts the text in two: the pieces of what comes before it, then of what follows. */
  lemma {:induction false} SplitAt(a: string, c: char, b: string, seps: set<char>)
    requires c in seps
    ensures Split(a + [c] + b, seps) == Split(a, seps) + Split(b, seps)
    decreases |a|
  {
    var s := a + [c] + b;
    if a == [] {
      assert s == [c] + b;
      assert s[1..] == b;
    } else {
      assert s[0] == a[0] && s[1..] == a[1..] + [c] + b;
      SplitAt(a[1..], c, b, seps);
      if a[0] !in seps {
        var ra := Split(a[1..], seps);
        var rest := Split(s[1..], seps);
        assert rest[0] == ra[0] && rest[1..] == ra[1..] + Split(b, seps);
      }
    }
  }

  /** `filter` distributes over concatenation. */
  lemma {:induction false} NonEmptyAppend(xs: seq<string>, ys: seq<string>)
    ensures NonEmpty(xs + ys) == NonEmpty(xs) + NonEmpty(ys)
  {
    if xs == [] {
      assert xs + ys == ys;
    } else {
      assert (xs + ys)[0] == xs[0] && (xs + ys)[1..] == xs[1..] + ys;
      NonEmptyAppend(xs[1..], ys);
    }
  }

  /**
   * A space or a tab separates tokens and is itself dropped, whatever surrounds it: the tokens
   * of `a`, a blank, `b` are those of `a` followed by those of `b`. Runs of blanks and tabs
   * therefore give no empty token.
   */
  lemma FieldsAtBlank(a: string, c: char, b: string)
    requires c in Blanks
    ensures Fields(a + [c] + b) == Fields(a) + Fields(b)
  {
    SplitAt(a, c, b, Blanks);
    NonEmptyAppend(Split(a, Blanks), Split(b, Blanks));
  }

  /** Concatenating pieces whose first one starts with `a` starts with `a`. */
  lemma ConcatCons(a: char, p: string, ps: seq<string>)
    ensures Concat([[a] + p] + ps) == [a] + Concat([p] + ps)
  {
    assert ([[a] + p] + ps)[1..] == ps;
    assert ([p] + ps)[1..] == ps;
  }

  /** The pieces of `split`, concatenated, are the text without its separators. */
  lemma {:induction false} ConcatSplit(s: string, seps: set<char>)
    ensures Concat(Split(s, seps)) == Without(s, seps)
    decreases |s|
  {
    if s == [] {
    } else if s[0] in seps {
      ConcatSplit(s[1..], seps);
      var rest := Split(s[1..], seps);
      assert ([[]] + rest)[1..] == rest;
    } else {
      ConcatSplit(s[1..], seps);
      var rest := Split(s[1..], seps);
      ConcatCons(s[0], rest[0], rest[1..]);
      assert [rest[0]] + rest[1..] == rest;
    }
  }

  lemma {:induction false} ConcatNonEmpty(ps: seq<string>)
    ensures Concat(NonEmpty(ps)) == Concat(ps)
  {
    if ps != [] {
      ConcatNonEmpty(ps[1..]);
      if ps[0] != [] {
        assert ([ps[0]] + NonEmpty(ps[1..]))[1..] == NonEmpty(ps[1..]);
      }
    }
  }

  /** The tokens of a line are exactly its characters other than spaces and tabs, in order. */
  lemma FieldsContent(s: string)
    ensures Concat(Fields(s)) == Without(s, Blanks)
  {
    ConcatNonEmpty(Split(s, Blanks));
    ConcatSplit(s, Blanks);
  }

  /** A line that does not start with a space or a tab has a first token, and it starts with
      the line's first character. */
  lemma {:induction false} FieldsHead(s: string)
    requires s != [] && s[0] !in Blanks
    ensures |Fields(s)| >= 1 && Fields(s)[0] != [] && Fields(s)[0][0] == s[0]
  {
    var rest := Split(s[1..], Blanks);
    var ps := Split(s, Blanks);
    assert ps == [[s[0]] + rest[0]] + rest[1..];
    assert ps[0] != [];
    assert NonEmpty(ps) == [ps[0]] + NonEmpty(ps[1..]);
  }

  /** `tokens[i]`, or the empty string where JavaScript would read `undefined`: both convert to
      NaN under `parseFloat` and `parseInt`. */
  function Arg(tokens: seq<string>, i: nat): string {
    if i < |tokens| then tokens[i] else []
  }

  /** `tokens[0]`, the line's keyword (the empty string matches no keyword, as `undefined`). */
  function Keyword(tokens: seq<string>): string {
    if tokens == [] then [] else tokens[0]
  }

  /** `tokens.slice(1).join(" ")`: the free-form name or path after the keyword. */
  function NameOf(tokens: seq<string>): string {
    if tokens == [] then [] else Join(tokens[1..], " ")
  }

  /**
   * One line as the loops at src/index.js:348-354 and 397-403 see it: skipped (None) when it
   * is blank or a comment after trimming, and otherwise split into its tokens.
   */
  function Tokenize(line: string): Option<seq<string>> {
    var t := Trim(line);
    if t == [] || t[0] == '#' then None else Some(Fields(t))
  }

  /**
   * A line is skipped exactly when it is blank or its first non-blank character is `#`; the
   * tokens of any other line are at least one, none empty, none holding a space or a tab, and
   * the first starts with the line's first non-blank character.
   */
  lemma TokenizeShape(line: string)
    ensures var r := Tokenize(line);
            && (r.None? <==> Trim(line) == [] || Trim(line)[0] == '#')
            && (r.Some? ==> |r.value| >= 1 && r.value[0] != [] && r.value[0][0] == Trim(line)[0])
            && (r.Some? ==> forall k :: 0 <= k < |r.value| ==> r.value[k] != [] && Plain(r.value[k], Blanks))
  {
    var t := Trim(line);
    if t != [] && t[0] != '#' {
      FieldsHead(t);
    }
  }
}
