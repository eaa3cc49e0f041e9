/** The allow-list of TCP ports a client may ask for: parsing of one entry and the set it denotes. */
module PortSpecs {
  import opened Decimal
  import opened Options

  type u16 = n: int | 0 <= n < 0x10000

  datatype PortSpec = Single(port: u16) | Range(start: u16, end: u16)

  datatype PortError = InvalidStart | InvalidEnd | InvalidRange(start: u16, end: u16) | InvalidPort

  datatype ParseResult = Ok(spec: PortSpec) | Err(error: PortError)

  /** The Unicode White_Space property, which `str::trim` strips. */
  predicate IsSpace(c: char) {
    var u := c as int;
    || 9 <= u <= 13 || u == 0x20 || u == 0x85 || u == 0xA0 || u == 0x1680
    || 0x2000 <= u <= 0x200A || u == 0x2028 || u == 0x2029 || u == 0x202F || u == 0x205F || u == 0x3000
  }

  function TrimStart(s: string): string {
    if s != "" && IsSpace(s[0]) then TrimStart(s[1..]) else s
  }

  function TrimEnd(s: string): string {
    if s != "" && IsSpace(s[|s| - 1]) then TrimEnd(s[..|s| - 1]) else s
  }

  function Trim(s: string): string {
    TrimEnd(TrimStart(s))
  }

  /** The two parts around the first occurrence of c. */
  function SplitOnce(s: string, c: char): (r: Option<(string, string)>)
    ensures r.None? ==> c !in s
    ensures r.Some? ==> s == r.value.0 + [c] + r.value.1 && c !in r.value.0
  {
    if s == "" then None
    else if s[0] == c then Some(("", s[1..]))
    else
      match SplitOnce(s[1..], c)
      case None => None
      case Some(p) => Some(([s[0]] + p.0, p.1))
  }

  /** Left-to-right accumulation with an overflow check after every digit. */
  function Accumulate(s: string, acc: nat): Option<u16>
    requires acc < 0x10000
  {
    if s == "" then Some(acc)
    else if !IsDigit(s[0]) then None
    else
      var next := acc * 10 + DigitValue(s[0]);
      if next < 0x10000 then Accumulate(s[1..], next) else None
  }

  /** `str::parse::<u16>`: a leading plus sign is accepted, an empty digit string is not. */
  function ParseU16(s: string): Option<u16> {
    var digits := if s != "" && s[0] == '+' then s[1..] else s;
    if digits == "" then None else Accumulate(digits, 0)
  }

  function Parse(text: string): ParseResult {
    var s := Trim(text);
    match SplitOnce(s, '-')
    case Some((start, end)) => (
      match ParseU16(Trim(start))
      case None => Err(InvalidStart)
      case Some(lo) =>
        match ParseU16(Trim(end))
        case None => Err(InvalidEnd)
        case Some(hi) => if lo > hi then Err(InvalidRange(lo, hi)) else Ok(Range(lo, hi)))
    case None =>
      match ParseU16(s)
      case None => Err(InvalidPort)
      case Some(p) => Ok(Single(p))
  }

  function SpecAllows(spec: PortSpec, port: u16): bool {
    match spec
    case Single(allowed) => port == allowed
    case Range(start, end) => port >= start && port <= end
  }

  function Allows(specs: seq<PortSpec>, port: u16): bool {
    if specs == [] then false else SpecAllows(specs[0], port) || Allows(specs[1..], port)
  }

  // ---- What the entries mean ----

  ghost predicate Between(lo: u16, p: u16, hi: u16) {
    lo <= p <= hi
  }

  /** The ports an entry stands for. */
  ghost function Denotation(spec: PortSpec): set<u16> {
    match spec
    case Single(p) => {p}
    case Range(lo, hi) => set p: u16 | lo <= p <= hi && Between(lo, p, hi)
  }

  ghost function Union(specs: seq<PortSpec>): set<u16> {
    set i, p | 0 <= i < |specs| && p in Denotation(specs[i]) :: p
  }

  /** A u16 numeral and its value: an optional plus sign, then digits denoting at most 65535. */
  ghost predicate IsNumeral(s: string, v: u16) {
    var digits := if s != "" && s[0] == '+' then s[1..] else s;
    digits != "" && AllDigits(digits) && Value(digits) == v
  }

  /** The texts that stand for an entry. */
  ghost predicate IsTextOf(text: string, spec: PortSpec) {
    var s := Trim(text);
    match spec
    case Single(p) => '-' !in s && IsNumeral(s, p)
    case Range(lo, hi) =>
      lo <= hi && exists a, b :: s == a + "-" + b && '-' !in a && IsNumeral(Trim(a), lo) && IsNumeral(Trim(b), hi)
  }

  function PrintSpec(spec: PortSpec): string {
    match spec
    case Single(p) => Print(p)
    case Range(lo, hi) => Print(lo) + "-" + Print(hi)
  }

  ghost predicate ValidSpec(spec: PortSpec) {
    spec.Range? ==> spec.start <= spec.end
  }

  // ---- Proofs ----

  /** The value of a numeral grows when a digit string is put in front of it. */
  lemma {:induction false} ValueConcat(a: string, b: string)
    requires AllDigits(a) && AllDigits(b)
    ensures AllDigits(a + b)
    ensures Value(a + b) == Value(a) * Pow10(|b|) + Value(b)
  {
    if b == "" {
      assert a + b == a;
    } else {
      var init := b[..|b| - 1];
      ValueConcat(a, init);
      assert (a + b)[..|a + b| - 1] == a + init;
      assert Pow10(|b|) == 10 * Pow10(|init|);
      ShiftDigit(Value(a), Pow10(|init|), Value(init), DigitValue(b[|b| - 1]));
    }
  }

  lemma ShiftDigit(v: nat, p: nat, rest: nat, d: nat)
    ensures (v * p + rest) * 10 + d == v * (10 * p) + (rest * 10 + d)
  {
    assert v * (10 * p) == v * p * 10;
  }

  lemma Distribute(acc: nat, d: nat, p: nat, rest: nat, next: nat)
    requires p >= 1 && next == acc * 10 + d
    ensures acc * (10 * p) + (d * p + rest) == next * p + rest >= next
  {
    assert acc * (10 * p) + d * p == next * p;
    assert next * p >= next;
  }

  lemma ValueOfFirst(s: string)
    requires s != "" && AllDigits(s) && AllDigits(s[1..])
    ensures Value(s) == DigitValue(s[0]) * Pow10(|s| - 1) + Value(s[1..])
  {
    assert s == [s[0]] + s[1..];
    ValueConcat([s[0]], s[1..]);
    assert Value([s[0]]) == DigitValue(s[0]) by {
      assert [s[0]][..0] == "" && Value("") == 0;
    }
  }

  /** Moving the first digit of a numeral into the accumulator keeps the value denoted. */
  lemma FirstDigit(s: string, acc: nat, next: nat)
    requires s != "" && AllDigits(s) && AllDigits(s[1..]) && next == acc * 10 + DigitValue(s[0])
    ensures acc * Pow10(|s|) + Value(s) == next * Pow10(|s| - 1) + Value(s[1..]) >= next
  {
    ValueOfFirst(s);
    Distribute(acc, DigitValue(s[0]), Pow10(|s| - 1), Value(s[1..]), next);
    assert Pow10(|s|) == 10 * Pow10(|s| - 1);
  }

  /** The checked accumulation computes the value exactly, and fails exactly when a character is not a
      digit or the value does not fit. */
  lemma {:induction false} AccumulateExact(s: string, acc: nat)
    requires acc < 0x10000
    ensures Accumulate(s, acc).Some? <==> AllDigits(s) && acc * Pow10(|s|) + Value(s) < 0x10000
    ensures Accumulate(s, acc).Some? ==> Accumulate(s, acc).value == acc * Pow10(|s|) + Value(s)
  {
    if s != "" && IsDigit(s[0]) {
      var next := acc * 10 + DigitValue(s[0]);
      assert AllDigits(s) <==> AllDigits(s[1..]) by {
        assert s == [s[0]] + s[1..];
      }
      if AllDigits(s) {
        FirstDigit(s, acc, next);
      }
      if next < 0x10000 {
        AccumulateExact(s[1..], next);
      }
    }
  }

  lemma ParseU16Exact(s: string, v: u16)
    ensures ParseU16(s) == Some(v) <==> IsNumeral(s, v)
  {
    var digits := if s != "" && s[0] == '+' then s[1..] else s;
    AccumulateExact(digits, 0);
  }

  lemma {:induction false} SplitOnceUnique(s: string, c: char, a: string, b: string)
    requires s == a + [c] + b && c !in a
    ensures SplitOnce(s, c) == Some((a, b))
  {
    if a == "" {
      assert s[1..] == b;
    } else {
      assert s[0] == a[0] && a[0] in a;
      assert s[1..] == a[1..] + [c] + b;
      SplitOnceUnique(s[1..], c, a[1..], b);
      assert [a[0]] + a[1..] == a;
    }
  }

  /** A text parses to an entry exactly when it is a text of that entry. */
  lemma ParseExact(text: string, spec: PortSpec)
    ensures Parse(text) == Ok(spec) <==> IsTextOf(text, spec)
  {
    var s := Trim(text);
    match (SplitOnce(s, '-'), spec) {
      case (None, Single(p)) => ParseU16Exact(s, p);
      case (None, Range(_, _)) =>
      case (Some((start, end)), Single(_)) =>
        assert s[|start|] == '-';
      case (Some((start, end)), Range(lo, hi)) =>
        ParseU16Exact(Trim(start), lo);
        ParseU16Exact(Trim(end), hi);
        assert s == start + "-" + end && '-' !in start;
        forall a, b | s == a + "-" + b && '-' !in a ensures a == start && b == end {
          SplitOnceUnique(s, '-', a, b);
        }
    }
  }

  ghost predicate IsPort(s: string) {
    exists v :: IsNumeral(s, v)
  }

  lemma NoPort(s: string)
    ensures ParseU16(s).None? <==> !IsPort(s)
  {
    forall v: u16 ensures ParseU16(s) == Some(v) <==> IsNumeral(s, v) {
      ParseU16Exact(s, v);
    }
    if ParseU16(s).Some? {
      assert IsNumeral(s, ParseU16(s).value);
    }
  }

  /** Two texts around the first dash of a text. */
  ghost predicate DashIn(s: string, a: string, b: string) {
    s == a + "-" + b && '-' !in a
  }

  /** Why a text without a dash is refused, and why one with a dash is, by the two texts around the dash. */
  lemma ErrorsExact(text: string, a: string, b: string)
    ensures '-' !in Trim(text) ==> (Parse(text).Err? <==> !IsPort(Trim(text)))
    ensures '-' !in Trim(text) && Parse(text).Err? ==> Parse(text).error == InvalidPort
    ensures DashIn(Trim(text), a, b) ==>
              && (Parse(text) == Err(InvalidStart) <==> !IsPort(Trim(a)))
              && (Parse(text) == Err(InvalidEnd) <==> IsPort(Trim(a)) && !IsPort(Trim(b)))
              && forall lo, hi :: Parse(text) == Err(InvalidRange(lo, hi))
                                  <==> IsNumeral(Trim(a), lo) && IsNumeral(Trim(b), hi) && lo > hi
  {
    var s := Trim(text);
    NoPort(s);
    NoPort(Trim(a));
    NoPort(Trim(b));
    if DashIn(s, a, b) {
      SplitOnceUnique(s, '-', a, b);
      forall lo: u16, hi: u16 ensures (ParseU16(Trim(a)) == Some(lo) <==> IsNumeral(Trim(a), lo))
                                      && (ParseU16(Trim(b)) == Some(hi) <==> IsNumeral(Trim(b), hi))
      {
        ParseU16Exact(Trim(a), lo);
        ParseU16Exact(Trim(b), hi);
      }
    }
  }

  /** A parsed entry allows at least one port. */
  lemma ParsedIsNonEmpty(text: string)
    requires Parse(text).Ok?
    ensures ValidSpec(Parse(text).spec) && Denotation(Parse(text).spec) != {}
  {
    var spec := Parse(text).spec;
    match spec {
      case Single(p) => assert p in Denotation(spec);
      case Range(lo, hi) => assert lo in Denotation(spec);
    }
  }

  lemma TrimNothing(s: string)
    requires s != "" ==> !IsSpace(s[0]) && !IsSpace(s[|s| - 1])
    ensures Trim(s) == s
  {
  }

  ghost predicate AllSpace(s: string) {
    forall i :: 0 <= i < |s| ==> IsSpace(s[i])
  }

  ghost predicate Tight(s: string) {
    s != "" ==> !IsSpace(s[0]) && !IsSpace(s[|s| - 1])
  }

  lemma {:induction false} TrimStartExact(s: string) returns (before: string)
    ensures AllSpace(before) && s == before + TrimStart(s) && (TrimStart(s) != "" ==> !IsSpace(TrimStart(s)[0]))
  {
    before := "";
    if s != "" && IsSpace(s[0]) {
      before := TrimStartExact(s[1..]);
      before := [s[0]] + before;
    }
  }

  lemma {:induction false} TrimEndExact(s: string) returns (after: string)
    ensures AllSpace(after) && s == TrimEnd(s) + after
    ensures TrimEnd(s) != "" ==> !IsSpace(TrimEnd(s)[|TrimEnd(s)| - 1]) && TrimEnd(s)[0] == s[0]
  {
    after := "";
    if s != "" && IsSpace(s[|s| - 1]) {
      after := TrimEndExact(s[..|s| - 1]);
      after := after + [s[|s| - 1]];
      assert s == s[..|s| - 1] + [s[|s| - 1]];
    }
  }

  /** Trimming takes white space off both ends, and all of it. */
  lemma TrimExact(s: string) returns (before: string, after: string)
    ensures AllSpace(before) && AllSpace(after) && s == before + Trim(s) + after && Tight(Trim(s))
  {
    before := TrimStartExact(s);
    after := TrimEndExact(TrimStart(s));
    assert s == before + (Trim(s) + after);
  }

  lemma NumeralOfPrint(p: u16)
    ensures IsNumeral(Print(p), p) && Trim(Print(p)) == Print(p) && '-' !in Print(p)
  {
    ValueOfPrint(p);
    TrimNothing(Print(p));
  }

  /** Printing an entry and parsing the text gives the entry back. */
  lemma PrintParse(spec: PortSpec)
    requires ValidSpec(spec)
    ensures Parse(PrintSpec(spec)) == Ok(spec)
  {
    var text := PrintSpec(spec);
    TrimNothing(text);
    match spec {
      case Single(p) => NumeralOfPrint(p);
      case Range(lo, hi) =>
        NumeralOfPrint(lo);
        NumeralOfPrint(hi);
        assert text == Print(lo) + "-" + Print(hi);
    }
    ParseExact(text, spec);
  }

  lemma SpecAllowsIsDenotation(spec: PortSpec, port: u16)
    ensures SpecAllows(spec, port) <==> port in Denotation(spec)
  {
    if spec.Range? {
      assert Between(spec.start, port, spec.end) <==> port in Denotation(spec);
    }
  }

  /** The list check is membership in the union of the denoted sets. */
  lemma {:induction false} AllowsIsUnion(specs: seq<PortSpec>, port: u16)
    ensures Allows(specs, port) <==> port in Union(specs)
  {
    if specs != [] {
      AllowsIsUnion(specs[1..], port);
      SpecAllowsIsDenotation(specs[0], port);
      if SpecAllows(specs[0], port) {
        assert port in Denotation(specs[0]);
      }
      if port in Union(specs[1..]) {
        var i :| 0 <= i < |specs[1..]| && port in Denotation(specs[1..][i]);
        assert port in Denotation(specs[i + 1]);
      }
      if port in Union(specs) {
        var i :| 0 <= i < |specs| && port in Denotation(specs[i]);
        assert i > 0 ==> port in Denotation(specs[1..][i - 1]);
      }
    }
  }

  /** The deprecated single-port option adds exactly that port to the list. */
  lemma AppendSingle(specs: seq<PortSpec>, port: u16)
    ensures Union(specs + [Single(port)]) == Union(specs) + {port}
  {
    var more := specs + [Single(port)];
    forall p: u16 ensures p in Union(more) <==> p in Union(specs) + {port} {
      if p in Union(more) {
        var i :| 0 <= i < |more| && p in Denotation(more[i]);
        assert i < |specs| ==> p in Denotation(specs[i]);
      }
      if p in Union(specs) {
        var i :| 0 <= i < |specs| && p in Denotation(specs[i]);
        assert p in Denotation(more[i]);
      }
      if p == port {
        assert p in Denotation(more[|specs|]);
      }
    }
  }
}
