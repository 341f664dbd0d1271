/** clients/ivi-shell-user-interface.c: splitting a launcher command into an
    argument vector, and creating the launcher icons group by group. */
module IviCommand {

  // ---------- Words of a command line ----------

  /** A maximal run of non-space characters. */
  predicate IsWord(s: string, a: nat, b: nat) {
    && a < b <= |s|
    && (forall i :: a <= i < b ==> s[i] != ' ')
    && (a == 0 || s[a - 1] == ' ')
    && (b == |s| || s[b] == ' ')
  }

  /** First position from i on that holds no space. */
  function SkipSpaces(s: string, i: nat): (a: nat)
    requires i <= |s|
    ensures i <= a <= |s|
    ensures forall j :: i <= j < a ==> s[j] == ' '
    ensures a < |s| ==> s[a] != ' '
    decreases |s| - i
  {
    if i < |s| && s[i] == ' ' then SkipSpaces(s, i + 1) else i
  }

  /** First position from i on that holds a space. */
  function SkipWord(s: string, i: nat): (b: nat)
    requires i <= |s|
    ensures i <= b <= |s|
    ensures forall j :: i <= j < b ==> s[j] != ' '
    ensures b < |s| ==> s[b] == ' '
    decreases |s| - i
  {
    if i < |s| && s[i] != ' ' then SkipWord(s, i + 1) else i
  }

  datatype Span = Span(start: nat, end: nat)

  /** The tokens strtok_r finds from position i on. */
  function Tokens(s: string, i: nat): (tokens: seq<Span>)
    requires i <= |s|
    ensures forall t :: t in tokens ==> i <= t.start < t.end <= |s|
    decreases |s| - i
  {
    var a := SkipSpaces(s, i);
    if a == |s| then []
    else
      var b := SkipWord(s, a);
      [Span(a, b)] + Tokens(s, if b == |s| then b else b + 1)
  }

  predicate AtWordStart(s: string, i: nat) {
    i <= |s| && (i == 0 || i == |s| || s[i - 1] == ' ')
  }

  /** Between i and the end of the first token there is only that word. */
  lemma {:induction false} FirstWord(s: string, i: nat, c: nat, d: nat)
    requires AtWordStart(s, i)
    ensures var a := SkipSpaces(s, i);
            i <= c && IsWord(s, c, d) ==>
              a < |s| && (Span(c, d) == Span(a, SkipWord(s, a)) || SkipWord(s, a) < c)
    ensures SkipSpaces(s, i) < |s| ==> IsWord(s, SkipSpaces(s, i), SkipWord(s, SkipSpaces(s, i)))
  {
    var a := SkipSpaces(s, i);
    if i <= c && IsWord(s, c, d) {
      assert s[c] != ' ';
      var b := SkipWord(s, a);
      if c <= b {
        assert c < d && d <= |s|;
        assert c == a;
        assert d == b;
      }
    }
  }

  /** The tokens are exactly the words, in order. */
  lemma {:induction false} TokensAreTheWords(s: string, i: nat)
    requires AtWordStart(s, i)
    ensures forall a: nat, b: nat :: Span(a, b) in Tokens(s, i) <==> i <= a && IsWord(s, a, b)
    ensures forall j, k :: 0 <= j < k < |Tokens(s, i)| ==> Tokens(s, i)[j].end < Tokens(s, i)[k].start
    decreases |s| - i
  {
    hide IsWord;
    var a := SkipSpaces(s, i);
    if a < |s| {
      var b := SkipWord(s, a);
      var next := if b == |s| then b else b + 1;
      TokensAreTheWords(s, next);
      forall c: nat, d: nat
        ensures Span(c, d) in Tokens(s, i) <==> i <= c && IsWord(s, c, d)
      {
        FirstWord(s, i, c, d);
        WordNonEmpty(s, c, d);
      }
      forall k | 0 < k < |Tokens(s, i)|
        ensures Tokens(s, i)[k].start > b
      {
        var t := Tokens(s, next)[k - 1];
        assert Tokens(s, i)[k] == t;
        assert t in Tokens(s, next);
      }
    } else {
      forall c: nat, d: nat
        ensures !(i <= c && IsWord(s, c, d))
      {
        FirstWord(s, i, c, d);
      }
    }
  }

  lemma WordNonEmpty(s: string, c: nat, d: nat)
    ensures IsWord(s, c, d) ==> c < d <= |s|
  {
  }

  /** Number of positions from i on where a space ends a word: what the counting
      loop of parse_command counts. */
  function WordEnds(s: string, i: nat): nat
    requires i <= |s|
    decreases |s| - i
  {
    if i == |s| then 0
    else (if i > 0 && s[i] == ' ' && s[i - 1] != ' ' then 1 else 0) + WordEnds(s, i + 1)
  }

  lemma {:induction false} WordEndsSkip(s: string, i: nat, j: nat)
    requires i <= j <= |s|
    requires forall k :: i <= k < j ==> k == 0 || s[k] != ' ' || s[k - 1] == ' '
    ensures WordEnds(s, i) == WordEnds(s, j)
    decreases j - i
  {
    if i < j { WordEndsSkip(s, i + 1, j); }
  }

  /** The count is the number of tokens, plus one exactly when the command ends
      in a space. */
  lemma {:induction false} CountVersusTokens(s: string, i: nat)
    requires s != [] && AtWordStart(s, i) && (i == |s| ==> s[|s| - 1] == ' ')
    ensures 1 + WordEnds(s, i) == |Tokens(s, i)| + (if s[|s| - 1] == ' ' then 1 else 0)
    decreases |s| - i
  {
    var a := SkipSpaces(s, i);
    WordEndsSkip(s, i, a);
    if a < |s| {
      var b := SkipWord(s, a);
      assert a > 0 ==> s[a] != ' ';
      WordEndsSkip(s, a, b);
      if b < |s| {
        CountVersusTokens(s, b + 1);
      }
    }
  }

  // ---------- The command in memory ----------

  /** From position i on, memory still holds the NUL-terminated string s. */
  predicate Intact(memory: seq<char>, s: string, i: nat) {
    && |memory| == |s| + 1
    && (forall k :: i <= k < |s| ==> memory[k] == s[k] && memory[k] != '\0')
    && memory[|s|] == '\0'
  }

  /** The C string at t.start is the word t of s. */
  predicate HoldsWord(memory: seq<char>, s: string, t: Span) {
    && t.start <= t.end <= |s| < |memory|
    && memory[t.start..t.end] == s[t.start..t.end]
    && '\0' !in memory[t.start..t.end]
    && memory[t.end] == '\0'
  }

  const NULL_TOKEN := -1

  /** rest lists the words not stored yet; strtok_r has just returned its first. */
  predicate NextToken(memory: seq<char>, s: string, rest: seq<Span>, token: int, save: nat) {
    && rest != [] && save <= |s|
    && token == rest[0].start && rest[0].end <= save
    && HoldsWord(memory, s, rest[0])
    && rest[1..] == Tokens(s, save)
  }

  /** strspn(p, " ") and strcspn(p, " ") on the memory still intact. */
  method SpanSpaces(memory: array<char>, from: nat, ghost s: string) returns (p: nat)
    requires from <= |s| && Intact(memory[..], s, from)
    ensures p == SkipSpaces(s, from)
  {
    p := from;
    while memory[p] == ' '
      invariant from <= p <= |s|
      invariant SkipSpaces(s, p) == SkipSpaces(s, from)
      decreases |s| - p
    {
      p := p + 1;
    }
  }

  method SpanUntilSpace(memory: array<char>, from: nat, ghost s: string) returns (p: nat)
    requires from <= |s| && Intact(memory[..], s, from)
    ensures p == SkipWord(s, from)
  {
    p := from;
    while memory[p] != '\0' && memory[p] != ' '
      invariant from <= p <= |s|
      invariant SkipWord(s, p) == SkipWord(s, from)
      decreases |s| - p
    {
      p := p + 1;
    }
  }

  /** strtok_r on " ", resuming at offset `from`: it terminates the token in
      place and reports where to resume. */
  method StrTok(memory: array<char>, from: nat, ghost s: string) returns (token: int, save: nat)
    requires from <= |s| && Intact(memory[..], s, from)
    modifies memory
    ensures from <= save <= |s| && Intact(memory[..], s, save)
    ensures forall k :: 0 <= k < from ==> memory[k] == old(memory[k])
    ensures Tokens(s, from) == [] ==> token == NULL_TOKEN && save == |s|
    ensures Tokens(s, from) != [] ==> NextToken(memory[..], s, Tokens(s, from), token, save)
  {
    var start := SpanSpaces(memory, from, s);
    if memory[start] == '\0' {
      return NULL_TOKEN, start;
    }
    var end := SpanUntilSpace(memory, start, s);
    token, save := start, end;
    if memory[end] != '\0' {
      memory[end] := '\0';
      save := end + 1;
    }
  }

  /** An earlier word stays in place while strtok_r works on the rest. */
  lemma WordKept(before: seq<char>, after: seq<char>, s: string, t: Span, from: nat, save: nat)
    requires HoldsWord(before, s, t) && t.end <= from <= save <= |s|
    requires Intact(before, s, from) && Intact(after, s, save)
    requires forall k :: 0 <= k < from ==> before[k] == after[k]
    ensures HoldsWord(after, s, t)
  {
    assert after[t.start..t.end] == before[t.start..t.end];
  }

  /** The words found so far are in place and addressed by argv. */
  predicate Stored(memory: seq<char>, argv: seq<int>, s: string, found: seq<Span>, save: nat) {
    && |found| <= |argv|
    && forall k :: 0 <= k < |found| ==>
         argv[k] == found[k].start && found[k].end <= save && HoldsWord(memory, s, found[k])
  }

  lemma MoveFirst(found: seq<Span>, rest: seq<Span>)
    requires rest != []
    ensures (found + [rest[0]]) + rest[1..] == found + rest
  {
  }

  lemma StoredExtends(memory: seq<char>, older: seq<int>, argv: seq<int>, s: string, found: seq<Span>, t: Span,
      save: nat)
    requires Stored(memory, older, s, found, save)
    requires |found| < |older| && argv == older[|found| := t.start]
    requires t.end <= save && HoldsWord(memory, s, t)
    ensures Stored(memory, argv, s, found + [t], save)
  {
  }

  lemma AllKept(before: seq<char>, after: seq<char>, argv: seq<int>, s: string, found: seq<Span>, from: nat, save: nat)
    requires Stored(before, argv, s, found, from) && from <= save <= |s|
    requires Intact(before, s, from) && Intact(after, s, save)
    requires forall k :: 0 <= k < from ==> before[k] == after[k]
    ensures Stored(after, argv, s, found, save)
  {
    forall k | 0 <= k < |found|
      ensures HoldsWord(after, s, found[k])
    {
      WordKept(before, after, s, found[k], from, save);
    }
  }

  /** The first loop of parse_command. */
  method CountArguments(memory: array<char>, ghost s: string) returns (count: nat)
    requires s != [] && Intact(memory[..], s, 0)
    ensures count == |Tokens(s, 0)| + (if s[|s| - 1] == ' ' then 1 else 0)
  {
    count := 1;
    var i := 1;
    while memory[i] != '\0'
      invariant 1 <= i <= |s|
      invariant count + WordEnds(s, i) == 1 + WordEnds(s, 1)
      decreases |s| - i
    {
      if memory[i] == ' ' && memory[i - 1] != ' ' {
        count := count + 1;
      }
      i := i + 1;
    }
    CountVersusTokens(s, 0);
  }

  /** parse_command: argv has a slot for every word and at least one NULL after
      them; slot k addresses the k-th word as a C string of its own. */
  method ParseCommand(memory: array<char>, ghost s: string) returns (argv: array<int>)
    requires s != [] && Intact(memory[..], s, 0)
    modifies memory
    ensures fresh(argv)
    ensures argv.Length == |Tokens(s, 0)| + (if s[|s| - 1] == ' ' then 2 else 1)
    ensures forall k :: 0 <= k < |Tokens(s, 0)| ==>
              argv[k] == Tokens(s, 0)[k].start && HoldsWord(memory[..], s, Tokens(s, 0)[k])
    ensures forall k :: |Tokens(s, 0)| <= k < argv.Length ==> argv[k] == NULL_TOKEN
  {
    hide HoldsWord, Tokens;
    var count := CountArguments(memory, s);
    argv := new int[count + 1](_ => NULL_TOKEN);

    var i := 0;
    ghost var found: seq<Span> := [];
    ghost var rest := Tokens(s, 0);
    var token, save := StrTok(memory, 0, s);
    while token != NULL_TOKEN
      invariant |found| == i && found + rest == Tokens(s, 0)
      invariant save <= |s| && Intact(memory[..], s, save)
      invariant Stored(memory[..], argv[..], s, found, save)
      invariant forall k :: i <= k < argv.Length ==> argv[k] == NULL_TOKEN
      invariant token == NULL_TOKEN <==> rest == []
      invariant rest != [] ==> NextToken(memory[..], s, rest, token, save)
      decreases |rest|
    {
      ghost var before, from, older := memory[..], save, argv[..];
      argv[i] := token;
      StoredExtends(before, older, argv[..], s, found, rest[0], save);
      MoveFirst(found, rest);
      found, rest := found + [rest[0]], rest[1..];
      i := i + 1;
      token, save := StrTok(memory, save, s);
      AllKept(before, memory[..], argv[..], s, found, from, save);
    }
  }

  // ---------- Launchers ----------

  datatype Launcher = Launcher(workspaceId: nat, iconSurfaceId: nat)

  /** create_launchers flushes a group whenever the workspace changes; every
      launcher is created exactly once and in list order. */
  method CreateLaunchers(launchers: seq<Launcher>) returns (created: seq<Launcher>)
    ensures created == launchers
  {
    created := [];
    var start := 0;
    var ii := 0;
    while ii < |launchers|
      invariant 0 <= start <= ii <= |launchers|
      invariant created == launchers[..start]
      invariant ii == |launchers| ==> start == ii
    {
      if ii != |launchers| - 1 && launchers[ii].workspaceId == launchers[ii + 1].workspaceId {
        ii := ii + 1;
        continue;
      }
      var jj := start;
      while jj <= ii
        invariant start <= jj <= ii + 1
        invariant created == launchers[..jj]
      {
        created := created + [launchers[jj]];
        jj := jj + 1;
      }
      start := ii + 1;
      ii := ii + 1;
    }
  }
}
