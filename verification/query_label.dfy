/**
 The query-label normaliser of JdbcHook: `stripValues(query)`, which is
 `query.replaceAll("values\\s*\\(.*?\\)", "values (...)")` with
 java.util.regex's default flags (case-sensitive, `.` stops at line
 terminators). The match is modelled as a function on the text from the
 current position, and the left-to-right replacement as a recursive scan.
 */
module QueryLabel {
  import opened Optional
  import opened Sequences

  /** Characters of the class `\s` without flags: [ \t\n\x0B\f\r]. */
  predicate IsRegexSpace(c: char) {
    c == ' ' || c == '\t' || c == '\n' || c == '\U{B}' || c == '\U{C}' || c == '\r'
  }

  /** Characters that `.` does not match without DOTALL or UNIX_LINES. */
  predicate IsLineTerminator(c: char) {
    c == '\n' || c == '\r' || c == '\U{85}' || c == '\U{2028}' || c == '\U{2029}'
  }

  /** The literal that opens every match. */
  const Keyword: string := "values"

  /** The replacement text of every match. */
  const Placeholder: string := "values (...)"

  /** The keyword occurs at index `i` of `s`. */
  predicate KeywordAt(s: string, i: nat) {
    i + |Keyword| <= |s| && s[i..i + |Keyword|] == Keyword
  }

  /** `s` contains the substring "values" somewhere. */
  predicate ContainsKeyword(s: string) {
    exists i: nat :: i < |s| && KeywordAt(s, i)
  }

  /**
   Declarative description of a match anchored at index 0 of `s` that
   ends just before index `n`, with its opening parenthesis at index `p`:
   "values", then only `\s` characters, then '(', then characters that are
   neither ')' nor line terminators, then ')'.
   */
  predicate MatchShape(s: string, p: nat, n: nat) {
    && |Keyword| <= p < n - 1 < |s|
    && KeywordAt(s, 0)
    && (forall k :: |Keyword| <= k < p ==> IsRegexSpace(s[k]))
    && s[p] == '('
    && s[n - 1] == ')'
    && (forall k :: p < k < n - 1 ==> s[k] != ')' && !IsLineTerminator(s[k]))
  }

  /** Greedy `\s*`: the length of the run of `\s` characters heading `s`. */
  function SpaceRun(s: string): (n: nat)
    ensures n <= |s|
    ensures forall k :: 0 <= k < n ==> IsRegexSpace(s[k])
    ensures n < |s| ==> !IsRegexSpace(s[n])
  {
    if s != [] && IsRegexSpace(s[0]) then 1 + SpaceRun(s[1..]) else 0
  }

  /** `s[n]` is the first ')' of `s` and no line terminator comes before it. */
  predicate ClosesAt(s: string, n: nat) {
    && n < |s|
    && s[n] == ')'
    && forall k :: 0 <= k < n ==> s[k] != ')' && !IsLineTerminator(s[k])
  }

  /**
   Lazy `.*?\)`: the index of the ')' that ends the shortest run of
   non-terminator characters, or None when a line terminator or the end
   of the text comes first.
   */
  function LazyClose(s: string): (r: Option<nat>)
    ensures r.Some? ==> ClosesAt(s, r.value)
    ensures r.None? ==> forall n: nat :: !ClosesAt(s, n)
  {
    if s == [] then None
    else if s[0] == ')' then Some(0)
    else if IsLineTerminator(s[0]) then None
    else
      match LazyClose(s[1..])
      case Some(k) => Some(k + 1)
      case None =>
        assert forall n: nat :: ClosesAt(s, n) ==> n > 0 && ClosesAt(s[1..], n - 1);
        None
  }

  /**
   The length of the match of `values\s*\(.*?\)` anchored at the head of
   `s`, or None when the pattern does not match there.
   */
  function MatchLen(s: string): (r: Option<nat>)
    ensures r.Some? ==> |Keyword| + 2 <= r.value <= |s|
  {
    if !KeywordAt(s, 0) then None
    else
      var p := |Keyword| + SpaceRun(s[|Keyword|..]);
      if p == |s| || s[p] != '(' then None
      else
        match LazyClose(s[p + 1..])
        case Some(k) => Some(p + k + 2)
        case None => None
  }

  /** Every length MatchLen reports is a match, and None means there is none. */
  lemma MatchLenSound(s: string)
    ensures MatchLen(s).Some? ==> MatchShape(s, |Keyword| + SpaceRun(s[|Keyword|..]), MatchLen(s).value)
    ensures MatchLen(s).None? ==> forall p: nat, n: nat :: !MatchShape(s, p, n)
  {
    if KeywordAt(s, 0) {
      var p := |Keyword| + SpaceRun(s[|Keyword|..]);
      forall q: nat, n: nat | MatchShape(s, q, n) ensures q == p {
        MatchOpenDetermined(s, q, n);
      }
      if p < |s| && s[p] == '(' {
        forall q: nat, n: nat | MatchShape(s, q, n) ensures ClosesAt(s[p + 1..], n - p - 2) {
          assert q == p;
        }
      }
    }
  }

  /** The opening parenthesis of a match is the first non-space after the keyword. */
  lemma MatchOpenDetermined(s: string, p: nat, n: nat)
    requires MatchShape(s, p, n)
    ensures p == |Keyword| + SpaceRun(s[|Keyword|..])
  {
  }

  /** A match anchored at the head of a text is unique. */
  lemma MatchUnique(s: string, p: nat, n: nat, p': nat, n': nat)
    requires MatchShape(s, p, n) && MatchShape(s, p', n')
    ensures p == p' && n == n'
  {
    MatchOpenDetermined(s, p, n);
    MatchOpenDetermined(s, p', n');
  }

  /** MatchLen finds exactly the matches MatchShape describes. */
  lemma MatchLenComplete(s: string, p: nat, n: nat)
    requires MatchShape(s, p, n)
    ensures MatchLen(s) == Some(n)
  {
    MatchLenSound(s);
    var r := MatchLen(s);
    assert r.Some?;
    MatchUnique(s, p, n, |Keyword| + SpaceRun(s[|Keyword|..]), r.value);
  }

  /**
   java.util.regex.Matcher.replaceAll with this pattern: scan left to
   right; where a match starts, emit the placeholder and resume after the
   match, otherwise copy one character and try the next index.
   */
  function StripValues(s: string): (r: string)
    decreases |s|
  {
    if s == [] then []
    else
      match MatchLen(s)
      case Some(n) => Placeholder + StripValues(s[n..])
      case None => [s[0]] + StripValues(s[1..])
  }

  /** A query without the substring "values" is returned unchanged. */
  lemma {:induction false} StripNoKeyword(s: string)
    requires !ContainsKeyword(s)
    ensures StripValues(s) == s
    decreases |s|
  {
    if s != [] {
      assert !KeywordAt(s, 0);
      assert MatchLen(s) == None;
      assert !ContainsKeyword(s[1..]) by {
        forall i: nat | i < |s[1..]| && KeywordAt(s[1..], i) ensures KeywordAt(s, i + 1) {
          assert s[1..][i..i + |Keyword|] == s[i + 1..i + 1 + |Keyword|];
        }
      }
      StripNoKeyword(s[1..]);
    }
  }

  /** Text before the first 'v' can never start a match, so it is copied verbatim. */
  lemma {:induction false} StripPlainPrefix(p: string, t: string)
    requires 'v' !in p
    ensures StripValues(p + t) == p + StripValues(t)
    decreases |p|
  {
    if p != [] {
      var s := p + t;
      assert MatchLen(s) == None by {
        assert s[0] == p[0] != 'v';
        assert !KeywordAt(s, 0);
      }
      assert StripValues(s) == [s[0]] + StripValues(s[1..]);
      assert s[1..] == p[1..] + t;
      StripPlainPrefix(p[1..], t);
      assert [p[0]] + (p[1..] + StripValues(t)) == p + StripValues(t);
    } else {
      assert p + t == t;
    }
  }

  /** Where a match starts, it is collapsed and the scan resumes after its ')'. */
  lemma StripAtMatch(s: string, p: nat, n: nat)
    requires MatchShape(s, p, n)
    ensures StripValues(s) == Placeholder + StripValues(s[n..])
  {
    MatchLenComplete(s, p, n);
  }

  /** The text "values", then `sp`, then `body` in parentheses. */
  function ValuesClause(sp: string, body: string): string {
    Keyword + sp + "(" + body + ")"
  }

  /**
   "values", any `\s` run, '(', a body free of ')' and line terminators,
   and ')' collapse to the placeholder; what follows the ')' is scanned on.
   */
  lemma StripClause(sp: string, body: string, rest: string)
    requires forall c | c in sp :: IsRegexSpace(c)
    requires ')' !in body
    requires forall c | c in body :: !IsLineTerminator(c)
    ensures StripValues(ValuesClause(sp, body) + rest) == Placeholder + StripValues(rest)
  {
    var s := ValuesClause(sp, body) + rest;
    var p := |Keyword| + |sp|;
    var n := p + |body| + 2;
    assert s[..|Keyword|] == Keyword;
    forall k | |Keyword| <= k < p ensures IsRegexSpace(s[k]) {
      assert s[k] == sp[k - |Keyword|];
    }
    forall k | p < k < n - 1 ensures s[k] != ')' && !IsLineTerminator(s[k]) {
      assert s[k] == body[k - p - 1];
    }
    assert MatchShape(s, p, n);
    assert s[n..] == rest;
    StripAtMatch(s, p, n);
  }

  /**
   A `values (` whose body meets a line terminator before any ')' is not a
   match, whatever follows: `.` does not cross line terminators.
   */
  lemma NoMatchAcrossLine(sp: string, body: string, rest: string)
    requires forall c | c in sp :: IsRegexSpace(c)
    requires ')' !in body
    requires exists c | c in body :: IsLineTerminator(c)
    ensures MatchLen(Keyword + sp + "(" + body + rest) == None
  {
    var s := Keyword + sp + "(" + body + rest;
    var p := |Keyword| + |sp|;
    assert s[..|Keyword|] == Keyword;
    assert s[|Keyword|..] == sp + ("(" + body + rest);
    SpaceRunOf(sp, "(" + body + rest);
    assert s[p] == '(';
    var c :| c in body && IsLineTerminator(c);
    var j :| 0 <= j < |body| && body[j] == c;
    assert s[p + 1..] == body + rest;
    LazyCloseBlocked(body + rest, j);
  }

  /** The `\s*` run over a prefix of spaces stops where the spaces stop. */
  lemma {:induction false} SpaceRunOf(sp: string, t: string)
    requires forall c | c in sp :: IsRegexSpace(c)
    requires t != [] && !IsRegexSpace(t[0])
    ensures SpaceRun(sp + t) == |sp|
    decreases |sp|
  {
    if sp != [] {
      assert (sp + t)[1..] == sp[1..] + t;
      SpaceRunOf(sp[1..], t);
    } else {
      assert sp + t == t;
    }
  }

  /** A line terminator before any ')' blocks the lazy `.*?\)`. */
  lemma LazyCloseBlocked(t: string, j: nat)
    requires j < |t| && IsLineTerminator(t[j])
    requires forall k | 0 <= k < j :: t[k] != ')'
    ensures LazyClose(t) == None
  {
  }

  /**
   A clause preceded by text without a 'v' and followed by `rest`: the
   preceding text is copied, the clause collapses, and the scan goes on
   with `rest`.
   */
  lemma StripPlainThenClause(prefix: string, sp: string, body: string, rest: string)
    requires 'v' !in prefix
    requires forall c | c in sp :: IsRegexSpace(c)
    requires ')' !in body
    requires forall c | c in body :: !IsLineTerminator(c)
    ensures StripValues(prefix + (ValuesClause(sp, body) + rest)) == prefix + (Placeholder + StripValues(rest))
  {
    StripClause(sp, body, rest);
    StripPlainPrefix(prefix, ValuesClause(sp, body) + rest);
  }

  /**
   Matcher.replaceAll as the library runs it: search for the next match
   from `from`, append the text skipped since the previous match and the
   replacement, and finally append the tail after the last match.
   */
  method ReplaceAll(s: string) returns (r: string)
    ensures r == StripValues(s)
  {
    ghost var want := StripValues(s);
    r := [];
    var last := 0;
    var from := 0;
    assert s[from..] == s && s[last..from] == [];
    while from < |s|
      invariant 0 <= last <= from <= |s|
      invariant ScanDone(s, r, last, from, want)
      decreases |s| - from
    {
      r, last, from := Search(s, r, last, from, want);
    }
    ScanEnd(s, r, last, want);
    r := r + s[last..];
  }

  /**
   The loop invariant of ReplaceAll: the output so far, followed by the
   pending unmatched text and the collapse of what is still unsearched,
   is the collapse of the whole query.
   */
  ghost predicate ScanDone(s: string, r: string, last: nat, from: nat, want: string)
    requires last <= from <= |s|
  {
    r + (s[last..from] + StripValues(s[from..])) == want
  }

  /**
   One search of ReplaceAll from `from`: on a match, the unmatched text and
   the placeholder are appended and both positions move past the match;
   otherwise the search moves on by one character.
   */
  method Search(s: string, r: string, last: nat, from: nat, ghost want: string) returns (r': string, last': nat, from': nat)
    requires last <= from < |s| && ScanDone(s, r, last, from, want)
    ensures last' <= from' <= |s| && from < from'
    ensures ScanDone(s, r', last', from', want)
  {
    match MatchLen(s[from..])
    case Some(n) =>
      ScanMatch(s, r, last, from, n, want);
      r', last', from' := r + s[last..from] + Placeholder, from + n, from + n;
    case None =>
      ScanCopy(s, r, last, from, want);
      r', last', from' := r, last, from + 1;
  }

  /** One step of ReplaceAll where a match starts at `from`. */
  lemma ScanMatch(s: string, r: string, last: nat, from: nat, n: nat, want: string)
    requires last <= from < |s| && MatchLen(s[from..]) == Some(n)
    requires ScanDone(s, r, last, from, want)
    ensures from + n <= |s|
    ensures ScanDone(s, r + s[last..from] + Placeholder, from + n, from + n, want)
  {
    var rest := s[from..];
    var tail := StripValues(s[from + n..]);
    assert rest[n..] == s[from + n..];
    assert StripValues(rest) == Placeholder + tail;
    assert s[from + n..from + n] == [];
    Regroup(r + s[last..from], Placeholder, tail);
    Regroup(r, s[last..from], Placeholder + tail);
  }

  /** One step of ReplaceAll where no match starts at `from`. */
  lemma ScanCopy(s: string, r: string, last: nat, from: nat, want: string)
    requires last <= from < |s| && MatchLen(s[from..]) == None
    requires ScanDone(s, r, last, from, want)
    ensures ScanDone(s, r, last, from + 1, want)
  {
    var rest := s[from..];
    var tail := StripValues(s[from + 1..]);
    assert rest[1..] == s[from + 1..];
    assert StripValues(rest) == [s[from]] + tail;
    assert s[last..from + 1] == s[last..from] + [s[from]];
    assert s[last..from] + ([s[from]] + tail) == (s[last..from] + [s[from]]) + tail;
  }

  /** After the last search, appending the tail completes the result. */
  lemma ScanEnd(s: string, r: string, last: nat, want: string)
    requires last <= |s| && ScanDone(s, r, last, |s|, want)
    ensures r + s[last..] == want
  {
  }
}
