/** `_neutralize_control_tokens` of `cogni_agent/prompting.py`: which tokens escaping
    removes from a text, and what it leaves alone. */
module PromptFraming {

  const SOT := "<|turn>"
  const EOT := "<turn|>"

  /** The control tokens that are escaped whatever the tokenizer is. */
  const KNOWN: seq<string> := [
    SOT, EOT, "<|channel>", "<channel|>", "<|tool_response>", "<|think|>", "<bos>", "<eos>"
  ]

  const WIDE_OPEN := '\U{FF1C}'
  const WIDE_CLOSE := '\U{FF1E}'

  predicate IsBracket(c: char) { c == '<' || c == '>' }

  predicate IsWide(c: char) { c == WIDE_OPEN || c == WIDE_CLOSE }

  function Widened(c: char): char {
    if c == '<' then WIDE_OPEN else if c == '>' then WIDE_CLOSE else c
  }

  /** The harmless spelling of a token. */
  function Guard(token: string): string {
    seq(|token|, i requires 0 <= i < |token| => Widened(token[i]))
  }

  /** `str.replace`: occurrences from the left, none overlapping. */
  function ReplaceAll(s: string, token: string, spelling: string): string
    requires token != ""
  {
    if |s| < |token| then s
    else if token <= s then spelling + ReplaceAll(s[|token|..], token, spelling)
    else [s[0]] + ReplaceAll(s[1..], token, spelling)
  }

  /** One pass of the loop. */
  function Pass(text: string, token: string): string {
    if token == "" then text else ReplaceAll(text, token, Guard(token))
  }

  /** All passes. */
  function Passes(text: string, tokens: seq<string>): string {
    if tokens == [] then text else Pass(Passes(text, tokens[..|tokens| - 1]), tokens[|tokens| - 1])
  }

  ghost predicate OccursAt(token: string, text: string, p: nat) {
    p + |token| <= |text| && text[p..p + |token|] == token
  }

  ghost predicate Occurs(token: string, text: string) {
    exists p :: OccursAt(token, text, p)
  }

  /** The same text, except that some brackets are wide. */
  ghost predicate Softened(a: string, b: string) {
    |a| == |b| && forall i :: 0 <= i < |a| ==> b[i] == a[i] || (IsBracket(a[i]) && b[i] == Widened(a[i]))
  }

  ghost predicate Plain(token: string) {
    forall i :: 0 <= i < |token| ==> !IsWide(token[i])
  }

  ghost predicate Bare(s: string) {
    forall i :: 0 <= i < |s| ==> !IsBracket(s[i])
  }

  /** The token can overlap itself in a part without brackets. */
  ghost predicate BareBorder(token: string, k: nat) {
    0 < k < |token| && token[..k] == token[|token| - k..] && Bare(token[..k])
  }

  /** Tokens that one pass removes, or that it leaves alone altogether. */
  ghost predicate Removable(token: string) {
    Plain(token) && (Bare(token) || forall k :: !BareBorder(token, k))
  }

  // ------------------------------------------------------------------
  // One pass
  // ------------------------------------------------------------------

  lemma {:induction false} PassSoftens(s: string, token: string)
    requires token != ""
    ensures Softened(s, ReplaceAll(s, token, Guard(token)))
  {
    if |s| >= |token| {
      if token <= s {
        PassSoftens(s[|token|..], token);
        assert s == token + s[|token|..];
      } else {
        PassSoftens(s[1..], token);
        assert s == [s[0]] + s[1..];
      }
    }
  }

  lemma SoftenedChains(a: string, b: string, c: string)
    requires Softened(a, b) && Softened(b, c)
    ensures Softened(a, c)
  {
  }

  /** A pass never creates a token that is spelled without wide brackets. */
  lemma SofteningCreatesNothing(a: string, b: string, token: string, p: nat)
    requires Softened(a, b) && Plain(token) && OccursAt(token, b, p)
    ensures OccursAt(token, a, p)
  {
    forall i | 0 <= i < |token| ensures a[p + i] == token[i] {
      assert b[p..p + |token|][i] == token[i];
      assert !IsWide(token[i]);
    }
    assert a[p..p + |token|] == token;
  }

  /** An occurrence that starts in a replaced one lies over a bare border. */
  lemma OverlapIsBare(token: string, rest: string, p: nat)
    requires Plain(token) && p < |token| && OccursAt(token, Guard(token) + rest, p)
    ensures p == 0 ==> Bare(token)
    ensures p > 0 ==> BareBorder(token, |token| - p)
  {
    var k := |token| - p;
    var r := Guard(token) + rest;
    forall i | 0 <= i < k ensures token[p + i] == token[i] && !IsBracket(token[i]) {
      assert r[p..p + |token|][i] == r[p + i] == Widened(token[p + i]);
      assert r[p..p + |token|][i] == token[i];
      assert !IsWide(token[i]);
    }
    assert token[..k] == token[p..];
  }

  lemma OccursAfter(token: string, front: string, rest: string, p: nat)
    requires p >= |front|
    ensures OccursAt(token, front + rest, p) <==> OccursAt(token, rest, p - |front|)
  {
    if p + |token| <= |front + rest| {
      assert (front + rest)[p..p + |token|] == rest[p - |front|..p - |front| + |token|];
    }
  }

  /** After its own pass, a removable token with a bracket is gone. */
  lemma {:induction false} PassRemoves(s: string, token: string, p: nat)
    requires Plain(token) && !Bare(token) && forall k :: !BareBorder(token, k)
    ensures !OccursAt(token, Pass(s, token), p)
    decreases |s|
  {
    assert token != "";
    hide BareBorder;
    hide Bare;
    hide Guard;
    if |s| < |token| {
    } else if token <= s {
      var rest := ReplaceAll(s[|token|..], token, Guard(token));
      if p >= |token| {
        PassRemoves(s[|token|..], token, p - |token|);
        GuardSize(token);
        OccursAfter(token, Guard(token), rest, p);
      } else if OccursAt(token, Guard(token) + rest, p) {
        OverlapIsBare(token, rest, p);
      }
    } else {
      var rest := ReplaceAll(s[1..], token, Guard(token));
      if p > 0 {
        PassRemoves(s[1..], token, p - 1);
        OccursAfter(token, [s[0]], rest, p);
      } else if OccursAt(token, [s[0]] + rest, 0) {
        PassSoftens(s, token);
        SofteningCreatesNothing(s, [s[0]] + rest, token, 0);
        assert false;
      }
    }
  }

  lemma GuardSize(token: string)
    ensures |Guard(token)| == |token|
    ensures Bare(token) ==> Guard(token) == token
  {
  }

  /** A pass changes nothing when its token has no bracket, or does not occur. */
  lemma {:induction false} PassKeeps(s: string, token: string)
    requires token != "" && (Bare(token) || forall p :: !OccursAt(token, s, p))
    ensures Pass(s, token) == s
    decreases |s|
  {
    GuardSize(token);
    hide Guard;
    hide Bare;
    if |s| < |token| {
    } else if token <= s {
      assert OccursAt(token, s, 0);
      PassKeeps(s[|token|..], token);
      assert s == token + s[|token|..];
    } else {
      assert s == [s[0]] + s[1..];
      forall p: nat | OccursAt(token, s[1..], p) ensures OccursAt(token, s, p + 1) {
        OccursAfter(token, [s[0]], s[1..], p + 1);
      }
      hide OccursAt;
      PassKeeps(s[1..], token);
    }
  }

  /** A pass changes every text in which its token occurs, unless the token has no bracket. */
  lemma {:induction false} PassChanges(s: string, token: string, p: nat)
    requires !Bare(token) && OccursAt(token, s, p)
    ensures Pass(s, token) != s
    decreases |s|
  {
    assert token != "";
    if token <= s {
      var i :| 0 <= i < |token| && IsBracket(token[i]);
      assert Pass(s, token)[i] == Guard(token)[i] == Widened(token[i]) != s[i];
    } else {
      assert OccursAt(token, s, 0) ==> token <= s;
      OccursAfter(token, [s[0]], s[1..], p);
      assert s == [s[0]] + s[1..];
      PassChanges(s[1..], token, p - 1);
      assert Pass(s, token)[1..] == Pass(s[1..], token);
    }
  }

  /** The pass has nothing to do. */
  ghost predicate Untouched(text: string, token: string) {
    Bare(token) || !Occurs(token, text)
  }

  lemma PassKeepsIff(s: string, token: string)
    ensures Pass(s, token) == s <==> Untouched(s, token)
  {
    if token != "" {
      if p: nat :| OccursAt(token, s, p) {
        if Bare(token) { PassKeeps(s, token); } else { PassChanges(s, token, p); }
      } else {
        PassKeeps(s, token);
      }
    }
  }

  // ------------------------------------------------------------------
  // All passes
  // ------------------------------------------------------------------

  lemma {:induction false} PassesSoften(text: string, tokens: seq<string>)
    ensures Softened(text, Passes(text, tokens))
  {
    if tokens != [] {
      var n := |tokens| - 1;
      PassesSoften(text, tokens[..n]);
      var before := Passes(text, tokens[..n]);
      if tokens[n] != "" { PassSoftens(before, tokens[n]); }
      SoftenedChains(text, before, Passes(text, tokens));
    }
  }

  /** Whatever else is escaped, and in whatever order, a removable token with a
      bracket is gone at the end. */
  lemma {:induction false} PassesRemove(text: string, tokens: seq<string>, token: string, p: nat)
    requires token in tokens && Removable(token) && !Bare(token)
    ensures !OccursAt(token, Passes(text, tokens), p)
  {
    var n := |tokens| - 1;
    var before := Passes(text, tokens[..n]);
    if tokens[n] == token {
      PassRemoves(before, token, p);
    } else {
      assert token in tokens[..n] by { assert tokens == tokens[..n] + [tokens[n]]; }
      PassesRemove(text, tokens[..n], token, p);
      if OccursAt(token, Passes(text, tokens), p) {
        if tokens[n] != "" { PassSoftens(before, tokens[n]); }
        SofteningCreatesNothing(before, Passes(text, tokens), token, p);
      }
    }
  }

  /** Escaping a second time, in whatever order, changes nothing. */
  lemma {:induction false} PassesAreIdempotent(text: string, tokens: seq<string>, again: seq<string>)
    requires forall t :: t in tokens ==> Removable(t)
    requires forall t :: t in again ==> t in tokens
    ensures Passes(Passes(text, tokens), again) == Passes(text, tokens)
    decreases |again|
  {
    if again != [] {
      var n := |again| - 1;
      PassesAreIdempotent(text, tokens, again[..n]);
      var t := again[n];
      if t != "" {
        if !Bare(t) {
          forall p: nat ensures !OccursAt(t, Passes(text, tokens), p) { PassesRemove(text, tokens, t, p); }
        }
        PassKeeps(Passes(text, tokens), t);
      }
    }
  }

  /** Widening is never taken back. */
  lemma SoftenedBack(a: string, b: string)
    requires Softened(a, b) && Softened(b, a)
    ensures a == b
  {
    assert forall i :: 0 <= i < |a| ==> a[i] == b[i];
  }

  /** The passes leave a text alone exactly when every one of them has nothing to do. */
  lemma {:induction false} PassesKeepIff(text: string, tokens: seq<string>)
    ensures Passes(text, tokens) == text <==> forall t :: t in tokens ==> Untouched(text, t)
  {
    if tokens != [] {
      var n := |tokens| - 1;
      var before := Passes(text, tokens[..n]);
      PassesKeepIff(text, tokens[..n]);
      PassKeepsIff(text, tokens[n]);
      assert tokens == tokens[..n] + [tokens[n]];
      if Passes(text, tokens) == text {
        PassesSoften(text, tokens[..n]);
        if tokens[n] != "" { PassSoftens(before, tokens[n]); }
        SoftenedBack(text, before);
      }
      hide Untouched;
    }
  }

  /** Escaping again, in whatever order, changes nothing exactly when no token with a
      bracket occurs in what escaping left. */
  lemma EscapedTwiceIff(text: string, tokens: seq<string>, again: seq<string>)
    requires forall t :: t in again <==> t in tokens
    ensures var once := Passes(text, tokens);
      Passes(once, again) == once <==> forall t :: t in tokens && !Bare(t) ==> !Occurs(t, once)
  {
    PassesKeepIff(Passes(text, tokens), again);
    hide Passes;
    hide Occurs;
    hide Bare;
  }

  lemma KnownAreRemovable(token: string)
    requires token in KNOWN
    ensures Removable(token) && !Bare(token) && token != ""
    ensures token[0] == '<'
  {
    assert IsBracket(token[0]);
    forall k | 0 < k < |token| ensures !BareBorder(token, k) {
      assert token[..k][0] == token[0];
    }
  }

  /** The fixed control tokens are gone, whatever other tokens the tokenizer has. */
  lemma KnownAreGone(text: string, tokens: seq<string>, token: string, p: nat)
    requires token in KNOWN && token in tokens
    ensures !OccursAt(token, Passes(text, tokens), p)
  {
    KnownAreRemovable(token);
    PassesRemove(text, tokens, token, p);
  }

  // ------------------------------------------------------------------
  // Tokens of a tokenizer that one pass does not remove
  // ------------------------------------------------------------------

  /** A token that overlaps itself in a bare part survives in this text. */
  function Overlapped(token: string, k: nat): string
    requires k <= |token|
  {
    token + token[k..]
  }

  lemma BareBorderSurvives(token: string, k: nat)
    requires Plain(token) && !Bare(token) && BareBorder(token, k)
    ensures OccursAt(token, Pass(Overlapped(token, k), token), |token| - k)
  {
    var s := Overlapped(token, k);
    assert s[|token|..] == token[k..] && token <= s;
    assert ReplaceAll(token[k..], token, Guard(token)) == token[k..];
    var r := Guard(token) + token[k..];
    assert Pass(s, token) == r;
    var p := |token| - k;
    forall i | 0 <= i < |token| ensures r[p..p + |token|][i] == token[i] {
      if i < k {
        assert r[p + i] == Widened(token[p + i]);
        assert token[p..][i] == token[..k][i];
      }
    }
    assert r[p..p + |token|] == token;
  }

  /** One pass removes a plain token from every text exactly when the token has no
      bare border. */
  lemma RemovedIffNoBareBorder(token: string)
    requires Plain(token) && !Bare(token)
    ensures (forall s :: !Occurs(token, Pass(s, token))) <==> forall k :: !BareBorder(token, k)
  {
    if k: nat :| BareBorder(token, k) {
      BareBorderSurvives(token, k);
      assert Occurs(token, Pass(Overlapped(token, k), token));
    } else {
      forall s ensures !Occurs(token, Pass(s, token)) {
        if p: nat :| OccursAt(token, Pass(s, token), p) { PassRemoves(s, token, p); }
      }
    }
  }

  /** And escaping it twice is escaping it once, in every text, on the same condition. */
  lemma IdempotentIffNoBareBorder(token: string)
    requires Plain(token) && !Bare(token)
    ensures (forall s :: Pass(Pass(s, token), token) == Pass(s, token)) <==> forall k :: !BareBorder(token, k)
  {
    RemovedIffNoBareBorder(token);
    forall s ensures Pass(Pass(s, token), token) == Pass(s, token) <==> !Occurs(token, Pass(s, token)) {
      PassKeepsIff(Pass(s, token), token);
    }
    hide Occurs;
    hide Pass;
    hide BareBorder;
  }

  /** The smallest such token: its middle survives, and a second pass takes it. */
  lemma BorderedTokenIsNotIdempotent()
    ensures BareBorder("a<b>a", 1)
    ensures Occurs("a<b>a", Pass("a<b>a<b>a", "a<b>a"))
    ensures Pass(Pass("a<b>a<b>a", "a<b>a"), "a<b>a") != Pass("a<b>a<b>a", "a<b>a")
  {
    var token := "a<b>a";
    assert token[..1] == "a" == token[4..];
    assert IsBracket(token[1]);
    assert Overlapped(token, 1) == "a<b>a<b>a";
    BareBorderSurvives(token, 1);
    PassKeepsIff(Pass("a<b>a<b>a", token), token);
  }

  const WIDE_TOKENS: seq<string> := ["\U{FF1C}b>", "<b"]

  /** A tokenizer whose tokens contain wide brackets: the second pass writes one of
      them, and escaping again gives another text. */
  lemma WideTokensAreNotIdempotent()
    ensures Passes("<b>", WIDE_TOKENS) == "\U{FF1C}b>"
    ensures Passes(Passes("<b>", WIDE_TOKENS), WIDE_TOKENS) == "\U{FF1C}b\U{FF1E}"
  {
    var one, two := WIDE_TOKENS[0], WIDE_TOKENS[1];
    assert WIDE_TOKENS == [one, two];
    PassesTwo("<b>", one, two);
    PassesTwo("\U{FF1C}b>", one, two);
    assert Guard(one) == "\U{FF1C}b\U{FF1E}" && Guard(two) == "\U{FF1C}b";
    assert Pass("<b>", one) == "<b>" by {
      assert "<b>"[1..] == "b>" && ReplaceAll("b>", one, Guard(one)) == "b>";
    }
    assert Pass("<b>", two) == "\U{FF1C}b>" by {
      assert "<b>"[2..] == ">" && ReplaceAll(">", two, Guard(two)) == ">";
    }
    assert Pass(one, one) == Guard(one) by {
      assert one[3..] == "" && ReplaceAll("", one, Guard(one)) == "";
    }
    forall p: nat ensures !OccursAt(two, Guard(one), p) {
      if p + 2 <= |Guard(one)| { assert Guard(one)[p..p + 2][0] == Guard(one)[p] != '<'; }
    }
    PassKeeps(Guard(one), two);
  }

  lemma PassesTwo(text: string, one: string, two: string)
    ensures Passes(text, [one, two]) == Pass(Pass(text, one), two)
  {
    assert [one, two][..1] == [one] && [one][..0] == [];
    assert Passes(text, [one]) == Pass(Passes(text, [one][..0]), one) == Pass(text, one);
    assert Passes(text, [one, two]) == Pass(Passes(text, [one, two][..1]), two);
  }

  // ------------------------------------------------------------------
  // The escaping loop
  // ------------------------------------------------------------------

  datatype Escaped = Safe(text: string) | Unsafe

  predicate Accepted(text: string) {
    text != "" && forall i :: 0 <= i < |text| ==> text[i] as int >= 32 || text[i] == '\t' || text[i] == '\r' || text[i] == '\n'
  }

  /** Some order in which the loop may take the candidates: each once, longer ones first. */
  ghost predicate LongestFirst(tokens: seq<string>, extras: seq<string>) {
    && (forall t :: t in tokens <==> t in KNOWN || t in extras)
    && (forall i, j :: 0 <= i < j < |tokens| ==> |tokens[i]| >= |tokens[j]| && tokens[i] != tokens[j])
  }

  /** A longest element. Python leaves the order of equally long ones open. */
  method Longest(todo: set<string>) returns (token: string)
    requires todo != {}
    ensures token in todo && forall t :: t in todo ==> |t| <= |token|
  {
    var rest := todo;
    token :| token in rest;
    rest := rest - {token};
    while rest != {}
      invariant rest <= todo && token in todo && forall t :: t in todo - rest ==> |t| <= |token|
      decreases |rest|
    {
      var t :| t in rest;
      rest := rest - {t};
      if |t| > |token| { token := t; }
    }
  }

  /** The loop has taken these tokens, each once and longer ones first. */
  ghost predicate Taken(tokens: seq<string>, all: set<string>, todo: set<string>) {
    && todo <= all && (forall t :: t in tokens <==> t in all - todo)
    && (forall i, j :: 0 <= i < j < |tokens| ==> |tokens[i]| >= |tokens[j]| && tokens[i] != tokens[j])
    && (forall i, t :: 0 <= i < |tokens| && t in todo ==> |tokens[i]| >= |t|)
  }

  lemma TakenNext(tokens: seq<string>, all: set<string>, todo: set<string>, token: string)
    requires Taken(tokens, all, todo) && token in todo && forall t :: t in todo ==> |t| <= |token|
    ensures Taken(tokens + [token], all, todo - {token})
  {
    assert forall i :: 0 <= i < |tokens| ==> tokens[i] in tokens;
  }

  lemma PassesSnoc(text: string, tokens: seq<string>, token: string)
    ensures Passes(text, tokens + [token]) == Pass(Passes(text, tokens), token)
  {
    assert (tokens + [token])[..|tokens|] == tokens;
  }

  /** The loop over the candidates. */
  method Escape(text: string, all: set<string>) returns (escaped: string, ghost tokens: seq<string>)
    ensures Taken(tokens, all, {}) && escaped == Passes(text, tokens)
  {
    tokens, escaped := [], text;
    var todo := all;
    assert Taken(tokens, all, todo) && escaped == Passes(text, tokens);
    hide Passes;
    hide Taken;
    while todo != {}
      invariant Taken(tokens, all, todo) && escaped == Passes(text, tokens)
      decreases |todo|
    {
      var token := Longest(todo);
      TakenNext(tokens, all, todo, token);
      PassesSnoc(text, tokens, token);
      if token != "" { escaped := ReplaceAll(escaped, token, Guard(token)); }
      tokens := tokens + [token];
      todo := todo - {token};
    }
  }

  /** `_neutralize_control_tokens`; `extras` are the tokenizer's own special tokens. */
  method Neutralize(text: string, extras: seq<string>) returns (result: Escaped, ghost tokens: seq<string>)
    ensures result.Safe? <==> Accepted(text)
    ensures result.Safe? ==> LongestFirst(tokens, extras) && result.text == Passes(text, tokens)
    ensures result.Safe? ==> Neutralized(text, result.text, extras)
  {
    tokens := [];
    if !Accepted(text) { return Unsafe, tokens; }
    var escaped;
    escaped, tokens := Escape(text, (set t | t in KNOWN) + (set t | t in extras));
    assert LongestFirst(tokens, extras);
    NeutralizedIsClean(text, tokens, extras);
    result := Safe(escaped);
  }

  /** A safe version of a text: same length, only brackets widened, no control token. */
  ghost predicate Clean(original: string, text: string) {
    Softened(original, text) && forall token :: token in KNOWN ==> !Occurs(token, text)
  }

  /** What `_neutralize_control_tokens` makes of a text: all tokens are replaced, in some
      order that takes longer ones first; the outcome is clean. */
  ghost predicate Neutralized(original: string, text: string, extras: seq<string>) {
    Clean(original, text) && exists tokens :: LongestFirst(tokens, extras) && text == Passes(original, tokens)
  }

  /** A text in which no token occurs comes through as it is. */
  lemma PlainTextStays(original: string, text: string, extras: seq<string>)
    requires Neutralized(original, text, extras)
    requires forall t :: t in KNOWN || t in extras ==> !Occurs(t, original)
    ensures text == original
  {
    var tokens :| LongestFirst(tokens, extras) && text == Passes(original, tokens);
    PassesKeepIff(original, tokens);
  }

  /** A place that one pass changes lies in an occurrence of the token. */
  lemma {:induction false} PassChangesOnly(s: string, token: string, i: nat) returns (p: nat)
    requires token != "" && i < |s| && |ReplaceAll(s, token, Guard(token))| == |s| && ReplaceAll(s, token, Guard(token))[i] != s[i]
    ensures p <= i < p + |token| && OccursAt(token, s, p)
  {
    var n := if token <= s then |token| else 1;
    var front, rest := s[..n], s[n..];
    assert s == front + rest;
    PassSoftens(rest, token);
    assert ReplaceAll(s, token, Guard(token)) == (if token <= s then Guard(token) else front) + ReplaceAll(rest, token, Guard(token));
    if i < n {
      p := 0;
    } else {
      p := PassChangesOnly(rest, token, i - n);
      p := p + n;
      OccursAfter(token, front, rest, p);
    }
    hide Guard;
    hide ReplaceAll;
  }

  /** With tokens that have no wide brackets, only brackets inside an occurrence of a
      token are changed; all other text comes through. */
  lemma {:induction false} PassesChangeOnly(text: string, tokens: seq<string>, i: nat) returns (t: string, p: nat)
    requires (forall t :: t in tokens ==> Plain(t)) && i < |text| && |Passes(text, tokens)| == |text|
    requires Passes(text, tokens)[i] != text[i]
    ensures IsBracket(text[i]) && t in tokens && p <= i < p + |t| && OccursAt(t, text, p)
  {
    PassesSoften(text, tokens);
    var n := |tokens| - 1;
    var before := Passes(text, tokens[..n]);
    PassesSoften(text, tokens[..n]);
    if before[i] != text[i] {
      t, p := PassesChangeOnly(text, tokens[..n], i);
    } else {
      t := tokens[n];
      p := PassChangesOnly(before, t, i);
      SofteningCreatesNothing(text, before, t, p);
    }
    hide Plain;
  }

  /** The fixed tokens, spelled out: none of them is left in a neutralized text. */
  lemma NoControlTokens(original: string, text: string, extras: seq<string>)
    requires Neutralized(original, text, extras)
    ensures !Occurs("<|turn>", text) && !Occurs("<turn|>", text) && !Occurs("<|channel>", text) && !Occurs("<channel|>", text)
    ensures !Occurs("<|tool_response>", text) && !Occurs("<|think|>", text) && !Occurs("<bos>", text) && !Occurs("<eos>", text)
  {
    assert KNOWN[0] == "<|turn>" && KNOWN[1] == "<turn|>" && KNOWN[2] == "<|channel>" && KNOWN[3] == "<channel|>";
    assert KNOWN[4] == "<|tool_response>" && KNOWN[5] == "<|think|>" && KNOWN[6] == "<bos>" && KNOWN[7] == "<eos>";
    hide Occurs;
  }

  /** The brackets that a token gets instead of its own. */
  lemma BosIsWidened()
    ensures Pass("<bos>", "<bos>") == "\U{FF1C}bos\U{FF1E}"
  {
    assert "<bos>"[|"<bos>"|..] == "";
    assert ReplaceAll("", "<bos>", Guard("<bos>")) == "";
    assert Guard("<bos>") + "" == Guard("<bos>");
  }

  lemma NeutralizedIsClean(text: string, tokens: seq<string>, extras: seq<string>)
    requires LongestFirst(tokens, extras)
    ensures Clean(text, Passes(text, tokens))
  {
    PassesSoften(text, tokens);
    forall token | token in KNOWN ensures !Occurs(token, Passes(text, tokens)) {
      forall p: nat ensures !OccursAt(token, Passes(text, tokens), p) { KnownAreGone(text, tokens, token, p); }
    }
  }
}
