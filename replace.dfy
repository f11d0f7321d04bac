/**
 * The semantics of JavaScript's `String.prototype.replace` with a global regular expression,
 * for the two shapes of pattern src/components/utils/handleTextSubs.js uses: a literal token
 * (`/{BREAK}/g`) and an opener, a lazy group and a closer (`/{BOLD}(.*?){END}/g`, whose
 * replacement puts text around `$1`).
 *
 * `Apply` is the left-to-right scan the engine performs: at each position it tries a match;
 * on success it emits the replacement and resumes after the match, otherwise it copies one
 * character and moves on.
 */
module GlobalReplace {

  datatype Option<T> = None | Some(value: T)

  /** The characters JavaScript's `.` refuses to match. */
  predicate IsLineTerminator(c: char) {
    c == '\n' || c == '\r' || c == '\U{2028}' || c == '\U{2029}'
  }

  predicate NoLineTerminator(s: string) {
    forall i :: 0 <= i < |s| ==> !IsLineTerminator(s[i])
  }

  /** `p` is a prefix of `s`. */
  predicate StartsWith(p: string, s: string) {
    |p| <= |s| && s[..|p|] == p
  }

  /** `p` occurs somewhere in `s`. */
  predicate Occurs(p: string, s: string)
    decreases |s|
  {
    StartsWith(p, s) || (s != [] && Occurs(p, s[1..]))
  }

  /** One `replace` stage of the chain. */
  datatype Rule =
    | Literal(token: string, replacement: string)
      // /{TOKEN}/g replaced by `replacement`
    | Pair(open: string, close: string, before: string, after: string)
      // /{OPEN}(.*?){CLOSE}/g replaced by `before` + $1 + `after`

  predicate WellFormed(rule: Rule) {
    match rule
    case Literal(token, _) => |token| > 0
    case Pair(open, close, _, _) => |open| > 0 && |close| > 0
  }

  /** The text a match must start with. */
  function Lead(rule: Rule): string {
    match rule
    case Literal(token, _) => token
    case Pair(open, _, _, _) => open
  }

  /** The text every replacement starts with. */
  function Emits(rule: Rule): string {
    match rule
    case Literal(_, replacement) => replacement
    case Pair(_, _, before, _) => before
  }

  /** `close` starts at index `j` of `t`. */
  predicate ClosesAt(close: string, t: string, j: nat) {
    j <= |t| && StartsWith(close, t[j..])
  }

  /** No line terminator among the first `j` characters of `t`. */
  predicate LineFreeBefore(t: string, j: nat) {
    forall i :: 0 <= i < j && i < |t| ==> !IsLineTerminator(t[i])
  }

  lemma ClosesAtStep(close: string, t: string, k: nat)
    requires t != []
    ensures ClosesAt(close, t, k + 1) <==> ClosesAt(close, t[1..], k)
  {
    if k + 1 <= |t| {
      assert t[k + 1..] == t[1..][k..];
    }
  }

  lemma LineFreeStep(t: string, k: nat)
    requires t != []
    ensures LineFreeBefore(t, k + 1) <==> !IsLineTerminator(t[0]) && LineFreeBefore(t[1..], k)
  {
    if LineFreeBefore(t, k + 1) {
      forall i | 0 <= i < k && i < |t[1..]|
        ensures !IsLineTerminator(t[1..][i])
      {
        assert t[1..][i] == t[i + 1];
      }
    }
    if !IsLineTerminator(t[0]) && LineFreeBefore(t[1..], k) {
      forall i | 0 < i < k + 1 && i < |t|
        ensures !IsLineTerminator(t[i])
      {
        assert t[i] == t[1..][i - 1];
      }
    }
  }

  /**
   * The lazy group `(.*?)` followed by `close`, tried at the start of `t`: the least `k` such
   * that `close` starts at `t[k]` and `t[..k]` holds no line terminator, if there is one
   * (`FindCloseLeast`, `FindCloseComplete`).
   */
  function FindClose(close: string, t: string): (r: Option<nat>)
    requires |close| > 0
    ensures r.Some? ==> ClosesAt(close, t, r.value)
    decreases |t|
  {
    if StartsWith(close, t) then Some(0)
    else if t == [] || IsLineTerminator(t[0]) then None
    else
      match FindClose(close, t[1..])
      case Some(k) => ClosesAtStep(close, t, k); Some(k + 1)
      case None => None
  }

  /** The group never spans a line terminator. */
  lemma {:induction false} FindCloseLineFree(close: string, t: string)
    requires |close| > 0
    ensures FindClose(close, t).Some? ==> LineFreeBefore(t, FindClose(close, t).value)
    decreases |t|
  {
    if !StartsWith(close, t) && t != [] && !IsLineTerminator(t[0]) {
      FindCloseLineFree(close, t[1..]);
      var r := FindClose(close, t[1..]);
      if r.Some? {
        LineFreeStep(t, r.value);
      }
    }
  }

  /** No closer starts before the one found: the group is lazy. */
  lemma {:induction false} FindCloseLeast(close: string, t: string, j: nat)
    requires |close| > 0
    ensures FindClose(close, t).Some? && j < FindClose(close, t).value ==> !ClosesAt(close, t, j)
    decreases |t|
  {
    if !StartsWith(close, t) && t != [] && !IsLineTerminator(t[0]) && j > 0 {
      FindCloseLeast(close, t[1..], j - 1);
      ClosesAtStep(close, t, j - 1);
    }
  }

  /** When nothing is found, no closer starts on the first line. */
  lemma {:induction false} FindCloseComplete(close: string, t: string, j: nat)
    requires |close| > 0
    ensures FindClose(close, t).None? && LineFreeBefore(t, j) ==> !ClosesAt(close, t, j)
    decreases |t|
  {
    if FindClose(close, t).None? && LineFreeBefore(t, j) && j > 0 && t != [] {
      if j <= |t| {
        LineFreeStep(t, j - 1);
        FindCloseComplete(close, t[1..], j - 1);
        ClosesAtStep(close, t, j - 1);
      }
    }
  }

  /** What the rule's pattern matches at the very start of `s`: the length consumed and the text emitted. */
  function MatchAt(rule: Rule, s: string): (r: Option<(nat, string)>)
    requires WellFormed(rule)
    ensures r.Some? ==> 0 < r.value.0 <= |s| && StartsWith(Lead(rule), s) && StartsWith(Emits(rule), r.value.1)
    ensures rule.Literal? ==> (r.Some? <==> StartsWith(rule.token, s))
    ensures rule.Literal? && r.Some? ==> r.value == (|rule.token|, rule.replacement)
  {
    match rule
    case Literal(token, replacement) =>
      if StartsWith(token, s) then Some((|token|, replacement)) else None
    case Pair(open, close, before, after) =>
      if StartsWith(open, s) then
        match FindClose(close, s[|open|..])
        case Some(k) => Some((|open| + k + |close|, before + s[|open|..|open| + k] + after))
        case None => None
      else None
  }

  /** `text.replace(pattern, replacement)` for a global pattern. */
  function Apply(rule: Rule, s: string): string
    requires WellFormed(rule)
    decreases |s|
  {
    if s == [] then []
    else
      match MatchAt(rule, s)
      case Some((n, out)) => out + Apply(rule, s[n..])
      case None => [s[0]] + Apply(rule, s[1..])
  }

  lemma ApplyMatched(rule: Rule, s: string, n: nat, out: string)
    requires WellFormed(rule) && s != [] && MatchAt(rule, s) == Some((n, out))
    ensures Apply(rule, s) == out + Apply(rule, s[n..])
  {
  }

  lemma ApplyUnmatched(rule: Rule, s: string)
    requires WellFormed(rule) && s != [] && MatchAt(rule, s).None?
    ensures Apply(rule, s) == [s[0]] + Apply(rule, s[1..])
  {
  }

  /** A chain of `replace` calls, applied first to last. */
  function ApplyAll(rules: seq<Rule>, s: string): string
    requires forall k :: 0 <= k < |rules| ==> WellFormed(rules[k])
    decreases |rules|
  {
    if rules == [] then s else ApplyAll(rules[1..], Apply(rules[0], s))
  }

  // ---------------------------------------------------------------------------------------
  // Text outside the tokens

  /**
   * A stage copies verbatim a prefix that holds no first character of its pattern, and
   * processes the rest as if it stood alone.
   */
  lemma {:induction false} ApplyCopiesUnmatchablePrefix(rule: Rule, a: string, b: string)
    requires WellFormed(rule) && Lead(rule)[0] !in a
    ensures Apply(rule, a + b) == a + Apply(rule, b)
    decreases |a|
  {
    if a == [] {
      assert a + b == b;
    } else {
      var s := a + b;
      assert s[0] == a[0] != Lead(rule)[0];
      assert !StartsWith(Lead(rule), s);
      assert MatchAt(rule, s).None?;
      ApplyUnmatched(rule, s);
      assert s[1..] == a[1..] + b;
      ApplyCopiesUnmatchablePrefix(rule, a[1..], b);
      ConsCongr(Apply(rule, s), a[0], Apply(rule, s[1..]), a[1..], Apply(rule, b), a);
    }
  }

  /** A chain whose patterns all start with `{` leaves text without `{` unchanged. */
  lemma {:induction false} ApplyAllWithoutBrace(rules: seq<Rule>, s: string)
    requires forall k :: 0 <= k < |rules| ==> WellFormed(rules[k]) && Lead(rules[k])[0] == '{'
    requires '{' !in s
    ensures ApplyAll(rules, s) == s
    decreases |rules|
  {
    if rules != [] {
      ApplyCopiesUnmatchablePrefix(rules[0], s, []);
      assert s + [] == s;
      ApplyAllWithoutBrace(rules[1..], s);
    }
  }

  /** A chain whose patterns all start with `{` copies a leading text without `{` and processes the rest alone. */
  lemma {:induction false} ApplyAllCopiesPrefix(rules: seq<Rule>, a: string, b: string)
    requires forall k :: 0 <= k < |rules| ==> WellFormed(rules[k]) && Lead(rules[k])[0] == '{'
    requires '{' !in a
    ensures ApplyAll(rules, a + b) == a + ApplyAll(rules, b)
    decreases |rules|
  {
    if rules != [] {
      ApplyCopiesUnmatchablePrefix(rules[0], a, b);
      ApplyAllCopiesPrefix(rules[1..], a, Apply(rules[0], b));
    }
  }

  /** A literal stage copies the text before its token, replaces the token, and goes on after it. */
  lemma LiteralReplacesToken(token: string, replacement: string, p: string, q: string)
    requires |token| > 0 && token[0] !in p
    ensures Apply(Literal(token, replacement), p + token + q)
         == p + replacement + Apply(Literal(token, replacement), q)
  {
    var rule := Literal(token, replacement);
    var s := token + q;
    assert p + token + q == p + s;
    ApplyCopiesUnmatchablePrefix(rule, p, s);
    assert s[..|token|] == token;
    ApplyMatched(rule, s, |token|, replacement);
    assert s[|token|..] == q;
  }

  /** A `{NAME}` token: `{`, then capital letters, then `}`. */
  predicate Closed(t: string) {
    |t| >= 2 && t[0] == '{' && t[|t| - 1] == '}' && forall k :: 0 < k < |t| - 1 ==> 'A' <= t[k] <= 'Z'
  }

  /** A `{NAME}` token never starts a text that starts with a different `{NAME}` token. */
  lemma ClosedTokensDiffer(l: string, t: string, u: string)
    requires Closed(l) && Closed(t) && l != t
    ensures !StartsWith(l, t + u)
  {
    var s := t + u;
    if |l| < |t| {
      assert s[..|l|][|l| - 1] == t[|l| - 1] != l[|l| - 1];
    } else if |l| == |t| {
      assert s[..|l|] == t;
    } else if |l| <= |s| {
      assert s[..|l|][|t| - 1] == t[|t| - 1] != l[|t| - 1];
    }
  }

  lemma ClosedTail(t: string)
    requires Closed(t)
    ensures '{' !in t[1..]
  {
    forall k | 0 <= k < |t| - 1
      ensures t[1..][k] != '{'
    {
      assert t[1..][k] == t[k + 1];
    }
  }

  /** A stage whose pattern is led by a different `{NAME}` token copies a leading token unchanged. */
  lemma TokenPassesStage(rule: Rule, t: string, q: string)
    requires WellFormed(rule) && Closed(Lead(rule)) && Closed(t) && Lead(rule) != t
    ensures Apply(rule, t + q) == t + Apply(rule, q)
  {
    var s := t + q;
    ClosedTokensDiffer(Lead(rule), t, q);
    assert MatchAt(rule, s).None?;
    ClosedTail(t);
    ApplyUnmatched(rule, s);
    assert s[1..] == t[1..] + q;
    ApplyCopiesUnmatchablePrefix(rule, t[1..], q);
    ConsCongr(Apply(rule, s), t[0], Apply(rule, s[1..]), t[1..], Apply(rule, q), t);
  }

  /** A chain of such stages copies the leading token and processes the rest alone. */
  lemma {:induction false} TokenPassesStages(rules: seq<Rule>, t: string, q: string)
    requires forall k :: 0 <= k < |rules| ==> WellFormed(rules[k]) && Closed(Lead(rules[k])) && Lead(rules[k]) != t
    requires Closed(t)
    ensures ApplyAll(rules, t + q) == t + ApplyAll(rules, q)
    decreases |rules|
  {
    if rules != [] {
      TokenPassesStage(rules[0], t, q);
      TokenPassesStages(rules[1..], t, Apply(rules[0], q));
    }
  }

  // ---------------------------------------------------------------------------------------
  // Literal stages remove their token

  lemma {:induction false} OccursInSuffix(p: string, a: string, b: string)
    requires |p| > 0 && p[0] !in a
    requires Occurs(p, a + b)
    ensures Occurs(p, b)
    decreases |a|
  {
    if a == [] {
      assert a + b == b;
    } else {
      assert (a + b)[0] == a[0];
      assert (a + b)[1..] == a[1..] + b;
      OccursInSuffix(p, a[1..], b);
    }
  }

  lemma {:induction false} OccursInLonger(p: string, s: string, k: nat)
    requires k <= |s| && Occurs(p, s[k..])
    ensures Occurs(p, s)
    decreases k
  {
    if k > 0 {
      assert s[1..][k - 1..] == s[k..];
      OccursInLonger(p, s[1..], k - 1);
    } else {
      assert s[k..] == s;
    }
  }

  /**
   * When every replacement of a stage starts with a character that `q` does not contain, a
   * prefix `q` of the output is already a prefix of the input: no replacement takes part in it.
   */
  lemma {:induction false} PrefixSurvives(rule: Rule, q: string, t: string)
    requires WellFormed(rule) && |Emits(rule)| > 0 && Emits(rule)[0] !in q
    requires |q| > 0 && StartsWith(q, Apply(rule, t))
    ensures StartsWith(q, t)
    decreases |t|
  {
    if t != [] {
      MatchedOutputLeads(rule, t);
      assert q[0] in q && q[0] == Apply(rule, t)[0];
      assert MatchAt(rule, t).None?;
      ApplyUnmatched(rule, t);
      PrefixOfCons(q, t[0], Apply(rule, t[1..]));
      if |q| > 1 {
        PrefixSurvives(rule, q[1..], t[1..]);
      }
      PrefixFromTail(q, t);
    }
  }

  /** Where a stage matches, its output starts with the first character of the replacement. */
  lemma MatchedOutputLeads(rule: Rule, t: string)
    requires WellFormed(rule) && t != [] && |Emits(rule)| > 0
    ensures MatchAt(rule, t).Some? ==> |Apply(rule, t)| > 0 && Apply(rule, t)[0] == Emits(rule)[0]
  {
    var m := MatchAt(rule, t);
    if m.Some? {
      var out := m.value.1;
      ApplyMatched(rule, t, m.value.0, out);
      assert out[..|Emits(rule)|] == Emits(rule);
      assert (out + Apply(rule, t[m.value.0..]))[0] == out[0];
    }
  }

  lemma PrefixOfCons(q: string, x: char, rest: string)
    requires |q| > 0 && StartsWith(q, [x] + rest)
    ensures q[0] == x && StartsWith(q[1..], rest)
  {
  }

  lemma PrefixFromTail(q: string, t: string)
    requires |q| > 0 && t != [] && q[0] == t[0] && (|q| > 1 ==> StartsWith(q[1..], t[1..]))
    ensures StartsWith(q, t)
  {
    if |q| > 1 {
      assert q == [q[0]] + q[1..];
      assert t == [t[0]] + t[1..];
    }
  }

  /** After a literal stage, its token no longer occurs. */
  lemma {:induction false} LiteralStageRemovesToken(token: string, replacement: string, s: string)
    requires |token| > 0 && |replacement| > 0
    requires replacement[0] !in token && token[0] !in replacement
    ensures !Occurs(token, Apply(Literal(token, replacement), s))
    decreases |s|
  {
    var rule := Literal(token, replacement);
    if s != [] {
      if StartsWith(token, s) {
        var rest := Apply(rule, s[|token|..]);
        assert Apply(rule, s) == replacement + rest;
        LiteralStageRemovesToken(token, replacement, s[|token|..]);
        if Occurs(token, replacement + rest) {
          OccursInSuffix(token, replacement, rest);
        }
      } else {
        var rest := Apply(rule, s[1..]);
        assert Apply(rule, s) == [s[0]] + rest;
        assert ([s[0]] + rest)[1..] == rest;
        LiteralStageRemovesToken(token, replacement, s[1..]);
        if StartsWith(token, [s[0]] + rest) {
          assert token[0] == s[0];
          if |token| > 1 {
            assert StartsWith(token[1..], rest);
            PrefixSurvives(rule, token[1..], s[1..]);
          }
          assert false;
        }
      }
    }
  }

  /** A literal stage never creates an occurrence of another text `q` that its replacement cannot start or continue. */
  lemma {:induction false} LiteralStageKeepsAbsent(q: string, token: string, replacement: string, s: string)
    requires |q| > 0 && |token| > 0 && |replacement| > 0
    requires replacement[0] !in q && q[0] !in replacement
    requires !Occurs(q, s)
    ensures !Occurs(q, Apply(Literal(token, replacement), s))
    decreases |s|
  {
    var rule := Literal(token, replacement);
    if s != [] {
      if StartsWith(token, s) {
        var rest := Apply(rule, s[|token|..]);
        assert Apply(rule, s) == replacement + rest;
        if Occurs(q, s[|token|..]) {
          OccursInLonger(q, s, |token|);
        }
        LiteralStageKeepsAbsent(q, token, replacement, s[|token|..]);
        if Occurs(q, replacement + rest) {
          OccursInSuffix(q, replacement, rest);
        }
      } else {
        var rest := Apply(rule, s[1..]);
        assert Apply(rule, s) == [s[0]] + rest;
        assert ([s[0]] + rest)[1..] == rest;
        LiteralStageKeepsAbsent(q, token, replacement, s[1..]);
        if StartsWith(q, Apply(rule, s)) {
          PrefixSurvives(rule, q, s);
        }
      }
    }
  }

  /** An occurrence in `c + x` lies within `c` or within `x` when `q` does not contain the first character of `x`. */
  lemma {:induction false} OccursAcross(q: string, c: string, x: string)
    requires |q| > 0 && |x| > 0 && x[0] !in q
    requires Occurs(q, c + x)
    ensures Occurs(q, c) || Occurs(q, x)
    decreases |c|
  {
    if c == [] {
      assert c + x == x;
    } else if StartsWith(q, c + x) {
      if |q| <= |c| {
        assert (c + x)[..|q|] == c[..|q|];
      } else {
        PrefixReachesTail(q, c, x);
      }
    } else {
      assert (c + x)[1..] == c[1..] + x;
      OccursAcross(q, c[1..], x);
    }
  }

  lemma PrefixReachesTail(q: string, c: string, x: string)
    requires |c| < |q| && |x| > 0 && StartsWith(q, c + x)
    ensures x[0] in q
  {
    assert q[|c|] == (c + x)[|c|];
  }

  lemma {:induction false} OccursInExtension(q: string, t: string, u: string)
    requires Occurs(q, t)
    ensures Occurs(q, t + u)
    decreases |t|
  {
    if StartsWith(q, t) {
      assert (t + u)[..|q|] == t[..|q|];
    } else {
      assert (t + u)[1..] == t[1..] + u;
      OccursInExtension(q, t[1..], u);
    }
  }

  /** A slice of a text without `q` holds no `q`. */
  lemma SliceKeepsAbsent(q: string, c: string, s: string, i: nat)
    requires i <= |s| && StartsWith(c, s[i..]) && !Occurs(q, s)
    ensures !Occurs(q, c)
  {
    if Occurs(q, c) {
      assert s[i..] == c + s[i + |c|..];
      OccursInExtension(q, c, s[i + |c|..]);
      OccursInLonger(q, s, i);
    }
  }

  /** A wrapped slice of `s` followed by text without `q` holds no `q` when `s` holds none. */
  lemma WrappedKeepsAbsent(q: string, before: string, c: string, after: string, rest: string, s: string, i: nat)
    requires |q| > 0 && |after| > 0 && after[0] !in q && q[0] !in before && q[0] !in after
    requires i <= |s| && StartsWith(c, s[i..])
    requires !Occurs(q, s) && !Occurs(q, rest)
    ensures !Occurs(q, before + c + after + rest)
  {
    SliceKeepsAbsent(q, c, s, i);
    assert before + c + after + rest == before + (c + (after + rest));
    if Occurs(q, before + (c + (after + rest))) {
      OccursInSuffix(q, before, c + (after + rest));
      OccursAcross(q, c, after + rest);
      OccursInSuffix(q, after, rest);
    }
  }

  /**
   * A pair stage never creates an occurrence of a text `q` when neither of its wrappers can start
   * or continue one: `q` starts with no character of the wrappers and contains neither of their
   * first characters. The wrapped content is a slice of the input, so it brings no new occurrence.
   */
  lemma {:induction false} PairStageKeepsAbsent(q: string, rule: Rule, s: string)
    requires WellFormed(rule) && rule.Pair? && |q| > 0
    requires |rule.before| > 0 && |rule.after| > 0
    requires rule.before[0] !in q && rule.after[0] !in q
    requires q[0] !in rule.before && q[0] !in rule.after
    requires !Occurs(q, s)
    ensures !Occurs(q, Apply(rule, s))
    decreases |s|
  {
    if s != [] {
      var m := MatchAt(rule, s);
      if m.Some? {
        var k := FindClose(rule.close, s[|rule.open|..]).value;
        var c := s[|rule.open|..|rule.open| + k];
        var n := m.value.0;
        assert m.value.1 == rule.before + c + rule.after;
        ApplyMatched(rule, s, n, m.value.1);
        if Occurs(q, s[n..]) {
          OccursInLonger(q, s, n);
        }
        PairStageKeepsAbsent(q, rule, s[n..]);
        WrappedKeepsAbsent(q, rule.before, c, rule.after, Apply(rule, s[n..]), s, |rule.open|);
      } else {
        ApplyUnmatched(rule, s);
        PairStageKeepsAbsent(q, rule, s[1..]);
        if StartsWith(q, Apply(rule, s)) {
          PrefixSurvives(rule, q, s);
        }
        assert ([s[0]] + Apply(rule, s[1..]))[1..] == Apply(rule, s[1..]);
      }
    }
  }

  /** A chain may be run in two parts. */
  lemma {:induction false} ApplyAllSplit(rules: seq<Rule>, k: nat, s: string)
    requires k <= |rules|
    requires forall j :: 0 <= j < |rules| ==> WellFormed(rules[j])
    ensures ApplyAll(rules, s) == ApplyAll(rules[k..], ApplyAll(rules[..k], s))
    decreases k
  {
    if k == 0 {
      assert rules[..0] == [] && rules[0..] == rules;
    } else {
      assert rules[1..][k - 1..] == rules[k..];
      assert rules[..k][1..] == rules[1..][..k - 1];
      ApplyAllSplit(rules[1..], k - 1, Apply(rules[0], s));
    }
  }

  // ---------------------------------------------------------------------------------------
  // Pair stages

  lemma {:induction false} OccursAt(p: string, s: string, k: nat)
    requires k <= |s| && StartsWith(p, s[k..])
    ensures Occurs(p, s)
  {
    OccursInLonger(p, s, k);
  }

  /**
   * An opener is paired with the nearest closer that follows it on the same line, and the text
   * between them is wrapped verbatim.
   */
  lemma PairWrapsNearestClose(open: string, close: string, before: string, after: string, c: string, rest: string)
    requires |open| > 0 && |close| > 0
    requires NoLineTerminator(c) && !Occurs(close, c + close[..|close| - 1])
    ensures Apply(Pair(open, close, before, after), open + c + close + rest)
         == before + c + after + Apply(Pair(open, close, before, after), rest)
  {
    FirstCloseAfter(close, c, rest);
    PairWrapsFound(Pair(open, close, before, after), c, rest);
  }

  lemma PairWrapsFound(rule: Rule, c: string, rest: string)
    requires WellFormed(rule) && rule.Pair?
    requires FindClose(rule.close, c + rule.close + rest) == Some(|c|)
    ensures Apply(rule, rule.open + c + rule.close + rest) == rule.before + c + rule.after + Apply(rule, rest)
  {
    var s := rule.open + c + rule.close + rest;
    MatchPairWraps(rule, c, rest);
    TailAfterClose(rule.open, c, rule.close, rest);
    ApplyMatched(rule, s, |rule.open| + |c| + |rule.close|, rule.before + c + rule.after);
  }

  lemma TailAfterClose(open: string, c: string, close: string, rest: string)
    ensures (open + c + close + rest)[|open| + |c| + |close|..] == rest
  {
  }

  lemma MatchPairWraps(rule: Rule, c: string, rest: string)
    requires WellFormed(rule) && rule.Pair?
    requires FindClose(rule.close, c + rule.close + rest) == Some(|c|)
    ensures MatchAt(rule, rule.open + c + rule.close + rest) == Some((|rule.open| + |c| + |rule.close|, rule.before + c + rule.after))
  {
    var s := rule.open + c + rule.close + rest;
    WrapSlices(rule.open, c, rule.close, rest, s);
    MatchPairAt(rule, s, |c|, c);
  }

  lemma WrapSlices(open: string, c: string, close: string, rest: string, s: string)
    requires s == open + c + close + rest
    ensures StartsWith(open, s) && s[|open|..] == c + close + rest
    ensures s[|open|..|open| + |c|] == c && s[|open| + |c| + |close|..] == rest
  {
  }

  lemma MatchPairAt(rule: Rule, s: string, k: nat, c: string)
    requires WellFormed(rule) && rule.Pair? && StartsWith(rule.open, s)
    requires FindClose(rule.close, s[|rule.open|..]) == Some(k)
    requires |rule.open| + k <= |s| && s[|rule.open|..|rule.open| + k] == c
    ensures MatchAt(rule, s) == Some((|rule.open| + k + |rule.close|, rule.before + c + rule.after))
  {
  }

  /** An occurrence that ends by `n` is still there once the text is cut at `n`. */
  lemma StartsWithInPrefix(p: string, t: string, k: nat, n: nat)
    requires k + |p| <= n <= |t| && StartsWith(p, t[k..])
    ensures StartsWith(p, t[..n][k..])
  {
    assert t[..n][k..][..|p|] == t[k..][..|p|];
  }

  lemma FirstCloseAfter(close: string, c: string, rest: string)
    requires |close| > 0
    requires NoLineTerminator(c) && !Occurs(close, c + close[..|close| - 1])
    ensures FindClose(close, c + close + rest) == Some(|c|)
  {
    var t := c + close + rest;
    assert LineFreeBefore(t, |c|);
    assert t[|c|..] == close + rest;
    assert ClosesAt(close, t, |c|);
    FindCloseComplete(close, t, |c|);
    var r := FindClose(close, t);
    var k := r.value;
    FindCloseLeast(close, t, |c|);
    if k < |c| {
      var w := c + close[..|close| - 1];
      assert w == t[..|c| + |close| - 1];
      StartsWithInPrefix(close, t, k, |c| + |close| - 1);
      OccursAt(close, w, k);
      assert false;
    }
  }

  /** With no closer anywhere, a pair stage changes nothing: an unclosed opener stays literal text. */
  lemma {:induction false} PairWithoutCloseIsIdentity(rule: Rule, s: string)
    requires WellFormed(rule) && rule.Pair?
    requires !Occurs(rule.close, s)
    ensures Apply(rule, s) == s
    decreases |s|
  {
    if s != [] {
      if StartsWith(rule.open, s) {
        var r := FindClose(rule.close, s[|rule.open|..]);
        if r.Some? {
          assert s[|rule.open|..][r.value..] == s[|rule.open| + r.value..];
          OccursAt(rule.close, s, |rule.open| + r.value);
        }
      }
      assert MatchAt(rule, s).None?;
      PairWithoutCloseIsIdentity(rule, s[1..]);
    }
  }

  lemma LineTerminatorBounds(t: string, j: nat, k: nat)
    ensures LineFreeBefore(t, k) && j < k && j < |t| ==> !IsLineTerminator(t[j])
  {
  }

  lemma CloseCharsAt(close: string, t: string, k: nat, j: nat)
    ensures ClosesAt(close, t, k) && k <= j < k + |close| ==> t[j] == close[j - k]
  {
    if ClosesAt(close, t, k) && k <= j < k + |close| {
      assert t[k..][j - k] == t[j];
    }
  }

  /** A closer that would have to reach past a line terminator is never found. */
  lemma NoCloseOnLine(close: string, c: string, lt: char, rest: string)
    requires |close| > 0 && NoLineTerminator(close) && IsLineTerminator(lt)
    requires !Occurs(close, c)
    ensures FindClose(close, c + [lt] + rest).None?
  {
    var t := c + [lt] + rest;
    var r := FindClose(close, t);
    if r.Some? {
      var k := r.value;
      FindCloseLineFree(close, t);
      assert t[|c|] == lt;
      LineTerminatorBounds(t, |c|, k);
      assert k <= |c|;
      CloseCharsAt(close, t, k, |c|);
      if |c| < k + |close| {
        assert false;
      }
      assert c[k..] == t[k..|c|];
      assert StartsWith(close, c[k..]);
      OccursAt(close, c, k);
      assert false;
    }
  }

  /**
   * A closer on a later line does not pair: `.` does not cross a line terminator, so an opener
   * whose line holds no closer is copied as text and scanning resumes behind it.
   */
  lemma PairStopsAtLineEnd(rule: Rule, c: string, lt: char, rest: string)
    requires WellFormed(rule) && rule.Pair? && rule.open[0] !in rule.open[1..]
    requires NoLineTerminator(rule.close) && IsLineTerminator(lt)
    requires !Occurs(rule.close, c)
    ensures Apply(rule, rule.open + c + [lt] + rest) == rule.open + Apply(rule, c + [lt] + rest)
  {
    NoCloseOnLine(rule.close, c, lt, rest);
    assert rule.open + c + [lt] + rest == rule.open + (c + [lt] + rest);
    ApplySkipsUnclosedOpen(rule, c + [lt] + rest);
  }

  /** An opener with no closer after it is copied as text. */
  lemma ApplySkipsUnclosedOpen(rule: Rule, t: string)
    requires WellFormed(rule) && rule.Pair? && rule.open[0] !in rule.open[1..]
    requires FindClose(rule.close, t).None?
    ensures Apply(rule, rule.open + t) == rule.open + Apply(rule, t)
  {
    var s := rule.open + t;
    OpenSplit(rule.open, t, s);
    MatchPairNone(rule, s);
    ApplyUnmatched(rule, s);
    ApplyCopiesUnmatchablePrefix(rule, rule.open[1..], t);
    ConsCongr(Apply(rule, s), s[0], Apply(rule, s[1..]), rule.open[1..], Apply(rule, t), rule.open);
  }

  lemma ConsCongr(l: string, h: char, y: string, u: string, r: string, o: string)
    requires l == [h] + y && y == u + r && o == [h] + u
    ensures l == o + r
  {
  }

  lemma OpenSplit(open: string, t: string, s: string)
    requires |open| > 0 && s == open + t
    ensures StartsWith(open, s) && s[|open|..] == t && s[1..] == open[1..] + t && open == [s[0]] + open[1..]
  {
  }

  lemma MatchPairNone(rule: Rule, s: string)
    requires WellFormed(rule) && rule.Pair? && StartsWith(rule.open, s)
    requires FindClose(rule.close, s[|rule.open|..]).None?
    ensures MatchAt(rule, s).None?
  {
  }
}
