/** The Python string operations the log parser is made of: `find`, `split`, `strip`, slices, and removal of terminal
    escape sequences by regular expression. */
module Text {
  predicate OccursAt(s: string, sub: string, i: nat) {
    i + |sub| <= |s| && s[i..i + |sub|] == sub
  }

  /** Index of the first occurrence from `from` on, or -1. */
  function FindFrom(s: string, sub: string, from: nat): (i: int)
    requires from <= |s|
    ensures i == -1 || (from <= i && OccursAt(s, sub, i))
    ensures forall j :: from <= j < (if i == -1 then |s| + 1 else i) ==> !OccursAt(s, sub, j)
    decreases |s| - from
  {
    if OccursAt(s, sub, from) then from
    else if from == |s| then -1
    else FindFrom(s, sub, from + 1)
  }

  function Find(s: string, sub: string): int {
    FindFrom(s, sub, 0)
  }

  function Split(s: string, sep: string): (parts: seq<string>)
    requires sep != ""
    ensures |parts| >= 1
    decreases |s|
  {
    var i := Find(s, sep);
    if i == -1 then [s] else [s[..i]] + Split(s[i + |sep|..], sep)
  }

  /** `s[start:end]`, where a negative index counts from the end. */
  function Slice(s: string, start: int, end: int): string {
    var from, to := Clamp(start, |s|), Clamp(end, |s|);
    if from <= to then s[from..to] else ""
  }

  function Clamp(i: int, n: nat): (k: nat)
    ensures k <= n
  {
    if i + n < 0 then 0 else if i < 0 then n + i else if i > n then n else i
  }

  /** What Python's `strip` takes for white space. */
  predicate IsSpace(c: char) {
    var u := c as int;
    || 9 <= u <= 13 || 0x1C <= u <= 0x20 || u == 0x85 || u == 0xA0 || u == 0x1680
    || 0x2000 <= u <= 0x200A || u == 0x2028 || u == 0x2029 || u == 0x202F || u == 0x205F || u == 0x3000
  }

  function StripStart(s: string): string {
    if s != "" && IsSpace(s[0]) then StripStart(s[1..]) else s
  }

  function StripEnd(s: string): string {
    if s != "" && IsSpace(s[|s| - 1]) then StripEnd(s[..|s| - 1]) else s
  }

  function Strip(s: string): string {
    StripEnd(StripStart(s))
  }

  predicate Tight(s: string) {
    s != "" && !IsSpace(s[0]) && !IsSpace(s[|s| - 1])
  }

  lemma StripSpaces(s: string)
    requires Tight(s)
    ensures Strip(s) == Strip(" " + s) == Strip(s + " ") == Strip(" " + s + " ") == s
  {
    assert (" " + s)[1..] == s && (" " + s + " ")[1..] == s + " ";
    assert StripStart(" " + s) == s && StripStart(s + " ") == s + " " == StripStart(" " + s + " ");
    assert (s + " ")[..|s|] == s;
  }

  // ---- Splitting ----

  /** The pieces put together again with the separator are the string. */
  function Join(parts: seq<string>, sep: string): string
    requires parts != []
  {
    if |parts| == 1 then parts[0] else parts[0] + sep + Join(parts[1..], sep)
  }

  /** Before its first occurrence there is none. */
  lemma NoneBefore(s: string, sep: string)
    requires sep != "" && Find(s, sep) != -1
    ensures Find(s[..Find(s, sep)], sep) == -1
  {
    var a := s[..Find(s, sep)];
    forall j: nat ensures !OccursAt(a, sep, j) {
      if j + |sep| <= |a| {
        assert !OccursAt(s, sep, j);
        assert a[j..j + |sep|] == s[j..j + |sep|];
      }
    }
  }

  ghost predicate Without(parts: seq<string>, sep: string) {
    forall k :: 0 <= k < |parts| ==> Find(parts[k], sep) == -1
  }

  lemma OnePartMore(a: string, parts: seq<string>, sep: string)
    requires parts != [] && Find(a, sep) == -1 && Without(parts, sep)
    ensures Without([a] + parts, sep) && Join([a] + parts, sep) == a + sep + Join(parts, sep)
  {
    assert ([a] + parts)[1..] == parts;
  }

  /** No piece holds the separator, and the pieces with the separator between them are the string. */
  lemma {:induction false} SplitExact(s: string, sep: string)
    requires sep != ""
    ensures Join(Split(s, sep), sep) == s && Without(Split(s, sep), sep)
    decreases |s|
  {
    if Find(s, sep) != -1 {
      var a, rest := Cut(s, sep);
      SplitExact(rest, sep);
      OnePartMore(a, Split(rest, sep), sep);
    }
  }

  /** The first piece, and what is split further. */
  lemma Cut(s: string, sep: string) returns (a: string, rest: string)
    requires sep != "" && Find(s, sep) != -1
    ensures s == a + sep + rest && Find(a, sep) == -1
    ensures Split(s, sep) == [a] + Split(rest, sep)
  {
    var i := Find(s, sep);
    a, rest := s[..i], s[i + |sep|..];
    NoneBefore(s, sep);
  }

  /** An occurrence brings each of its characters. */
  lemma OccursChar(s: string, sub: string, i: nat, k: nat)
    requires k < |sub|
    ensures OccursAt(s, sub, i) ==> s[i + k] == sub[k]
  {
    assert OccursAt(s, sub, i) ==> s[i..i + |sub|][k] == sub[k];
  }

  lemma FirstAt(s: string, sub: string, i: nat)
    requires OccursAt(s, sub, i) && forall j :: 0 <= j < i ==> !OccursAt(s, sub, j)
    ensures Find(s, sub) == i
  {
  }

  /** Where the separator's first character does not occur before it, the string splits there. */
  lemma SplitFirst(a: string, sep: string, b: string)
    requires sep != "" && sep[0] !in a
    ensures Find(a + sep + b, sep) == |a|
    ensures Split(a + sep + b, sep) == [a] + Split(b, sep)
  {
    var s := a + sep + b;
    forall j | 0 <= j < |a| ensures !OccursAt(s, sep, j) {
      assert s[j] == a[j];
      OccursChar(s, sep, j, 0);
    }
    CutAt(a, sep, b);
  }

  lemma CutAt(a: string, sep: string, b: string)
    requires sep != "" && forall j :: 0 <= j < |a| ==> !OccursAt(a + sep + b, sep, j)
    ensures Find(a + sep + b, sep) == |a|
    ensures Split(a + sep + b, sep) == [a] + Split(b, sep)
  {
    var s := a + sep + b;
    assert s[|a|..|a| + |sep|] == sep;
    FirstAt(s, sep, |a|);
    assert s[..|a|] == a && s[|a| + |sep|..] == b;
  }

  /** A string without some character of the separator is one piece. */
  lemma SplitWhole(s: string, sep: string, c: char)
    requires c in sep && c !in s
    ensures Find(s, sep) == -1 && Split(s, sep) == [s]
  {
    var k :| 0 <= k < |sep| && sep[k] == c;
    forall i: nat ensures !OccursAt(s, sep, i) {
      OccursChar(s, sep, i, k);
    }
  }

  /** A string cut in two, as when the separator occurs once. */
  lemma SplitTwo(a: string, sep: string, b: string, c: char)
    requires sep != "" && sep[0] !in a && c in sep && c !in b
    ensures Find(a + sep + b, sep) == |a|
    ensures Split(a + sep + b, sep) == [a, b]
  {
    SplitFirst(a, sep, b);
    SplitWhole(b, sep, c);
  }

  // ---- Escape sequences ----

  const ESC: char := '\U{1B}'

  function CountWhile(s: string, lo: char, hi: char): (n: nat)
    ensures n <= |s|
    ensures forall i :: 0 <= i < n ==> lo <= s[i] <= hi
    ensures n < |s| ==> !(lo <= s[n] <= hi)
  {
    if s != "" && lo <= s[0] <= hi then 1 + CountWhile(s[1..], lo, hi) else 0
  }

  /** Length of the escape sequence at the front: ESC, `[`, characters `0` to `?`, characters space to `/`, and one from
      `@` to `~`; or 0. The three classes are disjoint, so that at most one length matches. */
  function EscapeLength(s: string): (n: nat)
    ensures n <= |s|
  {
    if |s| < 2 || s[0] != ESC || s[1] != '[' then 0
    else
      var p := 2 + CountWhile(s[2..], '0', '?');
      var q := p + CountWhile(s[p..], ' ', '/');
      if q < |s| && '@' <= s[q] <= '~' then q + 1 else 0
  }

  /** Deletes every escape sequence, from left to right. */
  function StripAnsi(s: string): string
    decreases |s|
  {
    if s == "" then ""
    else if EscapeLength(s) > 0 then StripAnsi(s[EscapeLength(s)..])
    else [s[0]] + StripAnsi(s[1..])
  }

  /** Every ESC in the string starts an escape sequence that ends in the string. */
  ghost predicate Closed(s: string)
    decreases |s|
  {
    if s == "" then true
    else if s[0] == ESC then EscapeLength(s) > 0 && Closed(s[EscapeLength(s)..])
    else Closed(s[1..])
  }

  lemma {:induction false} CountWhileConcat(a: string, b: string, lo: char, hi: char)
    requires CountWhile(a, lo, hi) < |a|
    ensures CountWhile(a + b, lo, hi) == CountWhile(a, lo, hi)
  {
    if lo <= a[0] <= hi {
      assert (a + b)[1..] == a[1..] + b;
      CountWhileConcat(a[1..], b, lo, hi);
    }
  }

  /** Where the parameters and the intermediates of a sequence end. */
  ghost predicate PartsEnd(s: string, p: nat, q: nat) {
    && 2 <= p <= q < |s| && s[0] == ESC && s[1] == '[' && '@' <= s[q] <= '~'
    && p == 2 + CountWhile(s[2..], '0', '?') && q == p + CountWhile(s[p..], ' ', '/')
  }

  lemma EscapeEnds(s: string) returns (p: nat, q: nat)
    requires EscapeLength(s) > 0
    ensures PartsEnd(s, p, q) && EscapeLength(s) == q + 1
  {
    p := 2 + CountWhile(s[2..], '0', '?');
    q := p + CountWhile(s[p..], ' ', '/');
  }

  lemma EscapeConcat(a: string, b: string)
    requires EscapeLength(a) > 0
    ensures EscapeLength(a + b) == EscapeLength(a)
  {
    var p, q := EscapeEnds(a);
    CountFrom(a, b, 2, '0', '?');
    CountFrom(a, b, p, ' ', '/');
    EndsAt(a + b, p, q);
  }

  lemma EndsAt(s: string, p: nat, q: nat)
    requires PartsEnd(s, p, q)
    ensures EscapeLength(s) == q + 1
  {
  }

  lemma CountFrom(a: string, b: string, from: nat, lo: char, hi: char)
    requires from <= |a| && CountWhile(a[from..], lo, hi) < |a| - from
    ensures CountWhile((a + b)[from..], lo, hi) == CountWhile(a[from..], lo, hi)
  {
    assert (a + b)[from..] == a[from..] + b;
    CountWhileConcat(a[from..], b, lo, hi);
  }

  /** After a closed string, removal starts afresh. */
  lemma {:induction false} StripConcat(a: string, b: string)
    requires Closed(a)
    ensures StripAnsi(a + b) == StripAnsi(a) + StripAnsi(b)
    ensures Closed(a + b) <==> Closed(b)
    decreases |a|
  {
    if a == "" {
      assert a + b == b;
    } else if a[0] == ESC {
      var n := EscapeLength(a);
      EscapeConcat(a, b);
      assert (a + b)[n..] == a[n..] + b;
      StripConcat(a[n..], b);
    } else {
      assert (a + b)[1..] == a[1..] + b;
      StripConcat(a[1..], b);
    }
  }

  /** A text without ESC is left as it is. */
  lemma {:induction false} StripPlain(s: string)
    requires ESC !in s
    ensures Closed(s) && StripAnsi(s) == s
  {
    if s != "" {
      assert s[0] in s;
      StripPlain(s[1..]);
      assert s == [s[0]] + s[1..];
    }
  }

  // ---- What the operations do, exactly ----

  ghost predicate InClass(s: string, lo: char, hi: char) {
    forall i :: 0 <= i < |s| ==> lo <= s[i] <= hi
  }

  /** A sequence as the pattern describes it: parameters, intermediates and a final character. */
  ghost predicate IsEscape(s: string, parameters: string, intermediates: string, final: char) {
    && s == [ESC, '['] + parameters + intermediates + [final]
    && InClass(parameters, '0', '?') && InClass(intermediates, ' ', '/') && '@' <= final <= '~'
  }

  lemma {:induction false} CountIs(run: string, rest: string, lo: char, hi: char)
    requires InClass(run, lo, hi) && (rest != "" ==> !(lo <= rest[0] <= hi))
    ensures CountWhile(run + rest, lo, hi) == |run|
  {
    if run == "" {
      assert run + rest == rest;
    } else {
      assert (run + rest)[1..] == run[1..] + rest;
      CountIs(run[1..], rest, lo, hi);
    }
  }

  /** A sequence of the pattern is found with its length, whatever follows. */
  lemma EscapeFound(s: string, parameters: string, intermediates: string, final: char, rest: string)
    requires IsEscape(s, parameters, intermediates, final)
    ensures EscapeLength(s + rest) == |s|
  {
    var t, last, p := s + rest, [final] + rest, 2 + |parameters|;
    assert t[2..] == parameters + (intermediates + last);
    CountIs(parameters, intermediates + last, '0', '?');
    assert t[p..] == intermediates + last;
    CountIs(intermediates, last, ' ', '/');
    assert t[|s| - 1] == final;
    EndsAt(t, p, |s| - 1);
  }

  lemma CountedInClass(s: string, from: nat, to: nat, lo: char, hi: char)
    requires from <= |s| && to == from + CountWhile(s[from..], lo, hi)
    ensures InClass(s[from..to], lo, hi)
  {
    assert forall i :: from <= i < to ==> s[i] == s[from..][i - from];
  }

  lemma FourPieces(s: string, p: nat, q: nat)
    requires 2 <= p <= q < |s|
    ensures s[..q + 1] == [s[0], s[1]] + s[2..p] + s[p..q] + [s[q]]
  {
  }

  lemma PiecesAreEscape(s: string, p: nat, q: nat)
    requires PartsEnd(s, p, q)
    ensures IsEscape(s[..q + 1], s[2..p], s[p..q], s[q])
  {
    CountedInClass(s, 2, p, '0', '?');
    CountedInClass(s, p, q, ' ', '/');
    FourPieces(s, p, q);
  }

  /** And what is found is a sequence of the pattern. */
  lemma FoundIsEscape(s: string)
    requires EscapeLength(s) > 0
    ensures exists parameters, intermediates, final :: IsEscape(s[..EscapeLength(s)], parameters, intermediates, final)
  {
    var p, q := EscapeEnds(s);
    PiecesAreEscape(s, p, q);
  }

  ghost predicate AllSpace(s: string) {
    forall i :: 0 <= i < |s| ==> IsSpace(s[i])
  }

  lemma {:induction false} StripStartExact(s: string) returns (before: string)
    ensures AllSpace(before) && s == before + StripStart(s) && (StripStart(s) != "" ==> !IsSpace(StripStart(s)[0]))
  {
    before := "";
    if s != "" && IsSpace(s[0]) {
      before := StripStartExact(s[1..]);
      before := [s[0]] + before;
    }
  }

  lemma {:induction false} StripEndExact(s: string) returns (after: string)
    ensures AllSpace(after) && s == StripEnd(s) + after
    ensures StripEnd(s) != "" ==> !IsSpace(StripEnd(s)[|StripEnd(s)| - 1]) && StripEnd(s)[0] == s[0]
  {
    after := "";
    if s != "" && IsSpace(s[|s| - 1]) {
      after := StripEndExact(s[..|s| - 1]);
      after := after + [s[|s| - 1]];
      assert s == s[..|s| - 1] + [s[|s| - 1]];
    }
  }

  /** Stripping takes white space off both ends, and all of it. */
  lemma StripExact(s: string) returns (before: string, after: string)
    ensures AllSpace(before) && AllSpace(after) && s == before + Strip(s) + after
    ensures Strip(s) != "" ==> Tight(Strip(s))
  {
    before := StripStartExact(s);
    after := StripEndExact(StripStart(s));
    assert s == before + (Strip(s) + after);
  }

  /** A slice takes the characters from its start up to its end; a negative index counts from the end of the string. */
  lemma SliceExact(a: string, b: string, c: string)
    ensures Slice(a + b + c, |a|, |a| + |b|) == b
    ensures c != "" ==> Slice(a + b + c, |a|, -|c|) == b
  {
    var s := a + b + c;
    assert s[|a|..|a| + |b|] == b;
  }
}
