/** The metrics line of the stress test: how `monitor_stats` prints it in colour (utils/connection_stress_test.py) and
    how `parse_transfer_metrics` reads it back (utils/cst_datacruncher.py). */
module Metrics {
  import opened Options
  import opened Text
  import opened Decimal

  /** The figures of one direction, as texts or as numbers. */
  datatype Half<T> = Half(mb: T, pct: T, min: T, max: T, avg: T)

  datatype Metrics<T> = Metrics(up: Half<T>, down: Half<T>)

  // ---- Printing ----

  function Code(digits: string): string {
    [ESC, '['] + digits + "m"
  }

  const RED := Code("31")
  const GREEN := Code("32")
  const YELLOW := Code("33")
  const RESET := Code("0")

  function Painted(colour: string, s: string): string {
    colour + s + RESET
  }

  function Amounts(h: Half<string>): string {
    " " + h.mb + " MB transferred (" + h.pct + "% complete) | Speed: min: "
  }

  function HalfLine(tag: string, h: Half<string>): string {
    Painted(RED, tag) + Amounts(h)
    + Painted(GREEN, h.min) + " MB/s, max: "
    + Painted(GREEN, h.max) + " MB/s, avg: "
    + Painted(YELLOW, h.avg) + " MB/s"
  }

  /** The message of the monitor, and the reset the log formatter adds. */
  function Message(m: Metrics<string>): string {
    HalfLine("UP:", m.up) + " || " + HalfLine("DOWN:", m.down) + RESET + RESET
  }

  // ---- Parsing ----

  /** Conversion of a text to a number, which may raise an error. */
  type Float<!T> = string -> Option<T>

  /** `s.split(sep)[k]` */
  function Field(s: string, sep: string, k: nat): Option<string>
    requires sep != ""
  {
    var parts := Split(s, sep);
    if k < |parts| then Some(parts[k]) else None
  }

  function ParseSpeed<T>(section: string, k: nat, name: string, float: Float<T>): Option<T>
    requires name != ""
  {
    var part :- Field(section, ",", k);
    var tail :- Field(part, name, 1);
    float(Split(Strip(tail), " ")[0])
  }

  function SpeedSection(part: string): Option<string> {
    var bars := Split(part, "|");
    var last := bars[|bars| - 1];
    if Find(last, "Speed:") != -1 then Field(last, "Speed:", 1) else Some(last)
  }

  function PercentText(section: string): string {
    Strip(Slice(section, Find(section, "(") + 1, Find(section, "%")))
  }

  function ParseHalf<T>(part: string, tag: string, float: Float<T>): Option<Half<T>>
    requires tag != ""
  {
    var amount :- Field(Split(part, "MB transferred")[0], tag, 1);
    var mb :- float(Strip(amount));
    var section :- Field(part, "MB transferred", 1);
    var pct :- float(PercentText(section));
    var speeds :- SpeedSection(part);
    var min :- ParseSpeed(speeds, 0, "min:", float);
    var max :- ParseSpeed(speeds, 1, "max:", float);
    var avg :- ParseSpeed(speeds, 2, "avg:", float);
    Some(Half(mb, pct, min, max, avg))
  }

  /** `parse_transfer_metrics`: the ten numbers, or nothing when any step raises an error. */
  function ParseMetrics<T>(message: string, float: Float<T>): Option<Metrics<T>> {
    var parts := Split(message, "||");
    if |parts| < 2 then None
    else
      var up :- ParseHalf(Strip(parts[0]), "UP:", float);
      var down :- ParseHalf(Strip(parts[1]), "DOWN:", float);
      Some(Metrics(up, down))
  }

  // ---- The colours come off ----

  ghost predicate Strips(s: string, t: string) {
    Closed(s) && StripAnsi(s) == t
  }

  lemma Then(s: string, t: string, x: string, y: string)
    requires Strips(s, t) && Strips(x, y)
    ensures Strips(s + x, t + y)
  {
    StripConcat(s, x);
  }

  lemma {:induction false} DigitsCount(digits: string, rest: string)
    requires AllDigits(digits) && rest != "" && rest[0] > '?'
    ensures CountWhile(digits + rest, '0', '?') == |digits|
  {
    if digits == "" {
      assert digits + rest == rest;
    } else {
      assert (digits + rest)[1..] == digits[1..] + rest;
      DigitsCount(digits[1..], rest);
    }
  }

  /** A colour code is one escape sequence. */
  lemma CodeStrips(digits: string)
    requires AllDigits(digits)
    ensures Strips(Code(digits), "")
  {
    var s := Code(digits);
    DigitsCount(digits, "m");
    assert s[2..] == digits + "m";
    assert s[2 + |digits|..] == "m";
    assert EscapeLength(s) == |s| && s[|s|..] == "";
  }

  lemma Wrapped(colour: string, s: string, reset: string)
    requires Strips(colour, "") && Strips(s, s) && Strips(reset, "")
    ensures Strips(colour + s + reset, s)
  {
    Then(colour, "", s, s);
    Then(colour + s, "" + s, reset, "");
    assert "" + s + "" == s;
  }

  lemma PaintedStrips(digits: string, s: string)
    requires AllDigits(digits) && ESC !in s
    ensures Strips(Painted(Code(digits), s), s)
  {
    CodeStrips(digits);
    CodeStrips("0");
    StripPlain(s);
    Wrapped(Code(digits), s, RESET);
  }

  /** What the printer puts for a number: digits and a point. */
  ghost predicate IsNumeral(s: string) {
    s != "" && forall i :: 0 <= i < |s| ==> IsDigit(s[i]) || s[i] == '.'
  }

  ghost predicate AreNumerals(h: Half<string>) {
    IsNumeral(h.mb) && IsNumeral(h.pct) && IsNumeral(h.min) && IsNumeral(h.max) && IsNumeral(h.avg)
  }

  /** One direction without colours: the format the parser documents. */
  function PlainHalf(tag: string, h: Half<string>): string {
    tag + Amounts(h) + h.min + " MB/s, max: " + h.max + " MB/s, avg: " + h.avg + " MB/s"
  }

  function PlainMessage(m: Metrics<string>): string {
    PlainHalf("UP:", m.up) + " || " + PlainHalf("DOWN:", m.down)
  }

  lemma PiecesStrip(a: string, a': string, p: string, b: string, b': string, q: string, c: string, c': string,
                    r: string,
                    d: string, d': string, t: string)
    requires Strips(a, a') && Strips(p, p) && Strips(b, b') && Strips(q, q)
    requires Strips(c, c') && Strips(r, r) && Strips(d, d') && Strips(t, t)
    ensures Strips(a + p + b + q + c + r + d + t, a' + p + b' + q + c' + r + d' + t)
  {
    Then(a, a', p, p);
    Then(a + p, a' + p, b, b');
    Then(a + p + b, a' + p + b', q, q);
    Then(a + p + b + q, a' + p + b' + q, c, c');
    Then(a + p + b + q + c, a' + p + b' + q + c', r, r);
    Then(a + p + b + q + c + r, a' + p + b' + q + c' + r, d, d');
    Then(a + p + b + q + c + r + d, a' + p + b' + q + c' + r + d', t, t);
  }

  /** Painted texts with plain text after each of them. */
  lemma PaintedTexts(i: string, a: string, p: string, j: string, b: string, q: string, k: string, c: string, r: string,
                     l: string, d: string, t: string)
    requires AllDigits(i) && AllDigits(j) && AllDigits(k) && AllDigits(l)
    requires ESC !in a && ESC !in p && ESC !in b && ESC !in q && ESC !in c && ESC !in r && ESC !in d && ESC !in t
    ensures Strips(Painted(Code(i), a) + p + Painted(Code(j), b) + q + Painted(Code(k), c) + r
                   + Painted(Code(l), d) + t,
                   a + p + b + q + c + r + d + t)
  {
    PaintedStrips(i, a);
    PaintedStrips(j, b);
    PaintedStrips(k, c);
    PaintedStrips(l, d);
    StripPlain(p);
    StripPlain(q);
    StripPlain(r);
    StripPlain(t);
    PiecesStrip(Painted(Code(i), a), a, p, Painted(Code(j), b), b, q, Painted(Code(k), c), c, r, Painted(Code(l), d),
        d, t);
  }

  /** A character that is in no numeral and in none of the fixed texts is not in the line. */
  lemma NumeralFree(s: string, c: char)
    requires IsNumeral(s) && !IsDigit(c) && c != '.'
    ensures c !in s
  {
  }

  lemma AmountsFree(h: Half<string>)
    requires AreNumerals(h)
    ensures ESC !in Amounts(h)
  {
    NumeralFree(h.mb, ESC);
    NumeralFree(h.pct, ESC);
  }

  lemma HalfStrips(tag: string, h: Half<string>)
    requires AreNumerals(h) && ESC !in tag
    ensures Strips(HalfLine(tag, h), PlainHalf(tag, h))
  {
    AmountsFree(h);
    NumeralFree(h.min, ESC);
    NumeralFree(h.max, ESC);
    NumeralFree(h.avg, ESC);
    PaintedTexts("31", tag, Amounts(h), "32", h.min, " MB/s, max: ", "32", h.max, " MB/s, avg: ", "33", h.avg, " MB/s");
  }

  lemma HalvesStrip(a: string, a': string, p: string, b: string, b': string, c: string)
    requires Strips(a, a') && ESC !in p && Strips(b, b') && Strips(c, "")
    ensures Strips(a + p + b + c + c, a' + p + b')
  {
    StripPlain(p);
    Then(a, a', p, p);
    Then(a + p, a' + p, b, b');
    Then(a + p + b, a' + p + b', c, "");
    Then(a + p + b + c, a' + p + b' + "", c, "");
    assert a' + p + b' + "" + "" == a' + p + b';
  }

  lemma FixedTextsPlain()
    ensures ESC !in "UP:" && ESC !in "DOWN:" && ESC !in " || "
  {
  }

  /** Removing the escape sequences from the coloured message leaves the documented format. */
  lemma MessageStrips(m: Metrics<string>)
    requires AreNumerals(m.up) && AreNumerals(m.down)
    ensures StripAnsi(Message(m)) == PlainMessage(m)
  {
    FixedTextsPlain();
    HalfStrips("UP:", m.up);
    HalfStrips("DOWN:", m.down);
    CodeStrips("0");
    HalvesStrip(HalfLine("UP:", m.up), PlainHalf("UP:", m.up), " || ", HalfLine("DOWN:", m.down),
        PlainHalf("DOWN:", m.down), RESET);
  }

  // ---- The numbers come back ----

  /** The three speeds, after `Speed:`. */
  function SpeedPart(name: string, v: string): string {
    " " + name + (" " + v + " MB/s")
  }

  function Speeds(h: Half<string>): string {
    SpeedPart("min:", h.min) + "," + (SpeedPart("max:", h.max) + "," + SpeedPart("avg:", h.avg))
  }

  /** The percentage and what follows, after `MB transferred`. */
  function AfterAmount(h: Half<string>): string {
    " (" + h.pct + "%" + (" complete) " + "|" + (" " + "Speed:" + Speeds(h)))
  }

  lemma SpeedParsed(name: string, v: string)
    requires IsNumeral(v) && |name| == 4 && name[0] in ['m', 'a']
    ensures Field(SpeedPart(name, v), name, 1) == Some(" " + v + " MB/s")
    ensures Split(Strip(" " + v + " MB/s"), " ")[0] == v
  {
    var tail := v + " MB/s";
    NumeralFree(v, name[0]);
    NumeralFree(v, ' ');
    assert " " + tail == " " + v + " MB/s";
    SplitTwo(" ", name, " " + v + " MB/s", name[0]);
    assert Tight(tail);
    StripSpaces(tail);
    assert tail == v + " " + "MB/s";
    SplitFirst(v, " ", "MB/s");
  }

  lemma SpeedsParsed(h: Half<string>)
    requires AreNumerals(h)
    ensures Split(Speeds(h), ",") == [SpeedPart("min:", h.min), SpeedPart("max:", h.max), SpeedPart("avg:", h.avg)]
  {
    NumeralFree(h.min, ',');
    NumeralFree(h.max, ',');
    NumeralFree(h.avg, ',');
    SplitTwo(SpeedPart("max:", h.max), ",", SpeedPart("avg:", h.avg), ',');
    SplitFirst(SpeedPart("min:", h.min), ",", SpeedPart("max:", h.max) + "," + SpeedPart("avg:", h.avg));
  }

  lemma SpeedsFree(h: Half<string>, c: char)
    requires AreNumerals(h) && (c == '|' || c == 'S' || c == 'f')
    ensures c !in Speeds(h)
  {
    NumeralFree(h.min, c);
    NumeralFree(h.max, c);
    NumeralFree(h.avg, c);
    assert c !in SpeedPart("min:", h.min) && c !in SpeedPart("max:", h.max) && c !in SpeedPart("avg:", h.avg);
  }

  /** The text between the bracket and the percent sign. */
  lemma BetweenSigns(pct: string, tail: string)
    requires IsNumeral(pct)
    ensures PercentText(" (" + pct + "%" + tail) == pct
  {
    var s := " (" + pct + "%" + tail;
    NumeralFree(pct, '%');
    NumeralFree(pct, ' ');
    SplitFirst(" (" + pct, "%", tail);
    assert s == " " + "(" + (pct + "%" + tail);
    SplitFirst(" ", "(", pct + "%" + tail);
    assert s[2..2 + |pct|] == pct;
    assert Tight(pct);
    StripSpaces(pct);
  }

  lemma PercentParsed(h: Half<string>)
    requires AreNumerals(h)
    ensures PercentText(AfterAmount(h)) == h.pct
  {
    BetweenSigns(h.pct, " complete) " + "|" + (" " + "Speed:" + Speeds(h)));
  }

  lemma SectionParsed(before: string, h: Half<string>)
    requires AreNumerals(h) && '|' !in before
    ensures SpeedSection(before + "|" + (" " + "Speed:" + Speeds(h))) == Some(Speeds(h))
  {
    SpeedsFree(h, '|');
    SpeedsFree(h, 'S');
    SplitTwo(before, "|", " " + "Speed:" + Speeds(h), '|');
    SplitTwo(" ", "Speed:", Speeds(h), 'S');
  }

  ghost predicate IsTag(tag: string) {
    tag == "UP:" || tag == "DOWN:"
  }

  lemma AmountText(tag: string, mb: string)
    requires IsNumeral(mb) && IsTag(tag)
    ensures Field(tag + (" " + mb + " "), tag, 1) == Some(" " + mb + " ") && Strip(" " + mb + " ") == mb
  {
    var amount := " " + mb + " ";
    NumeralFree(mb, tag[0]);
    assert "" + tag + amount == tag + amount;
    SplitTwo("", tag, amount, tag[0]);
    NumeralFree(mb, ' ');
    assert Tight(mb);
    StripSpaces(mb);
  }

  lemma AmountParsed(left: string, h: Half<string>)
    requires AreNumerals(h) && 'M' !in left
    ensures Split(left + "MB transferred" + AfterAmount(h), "MB transferred") == [left, AfterAmount(h)]
  {
    AfterAmountFree(h);
    assert "MB transferred"[8] == 'f';
    SplitTwo(left, "MB transferred", AfterAmount(h), 'f');
  }

  lemma AfterAmountFree(h: Half<string>)
    requires AreNumerals(h)
    ensures 'f' !in AfterAmount(h)
  {
    NumeralFree(h.pct, 'f');
    SpeedsFree(h, 'f');
  }

  lemma Regroup8(a: string, b: string, c: string, d: string, e: string, f: string, g: string, h: string)
    ensures a + b + c + d + e + f + g + h == a + b + (c + d + e + f + g + h)
  {
  }

  lemma RegroupAmount(tag: string, sp: string, mb: string, x: string, pct: string, y: string, z: string)
    ensures tag + (sp + mb + (sp + x + z) + pct + y) == tag + (sp + mb + sp) + x + (z + pct + y)
    ensures tag + (sp + mb + (sp + x + z) + pct + y) == tag + sp + mb + (sp + x + z) + pct + y
  {
  }

  lemma Regroup3(a: string, b: string, c: string)
    ensures a + b + c == a + (b + c)
  {
  }

  /** The speeds as they are printed, after the first name. */
  function SpeedValues(h: Half<string>): string {
    h.min + " MB/s, max: " + h.max + " MB/s, avg: " + h.avg + " MB/s"
  }

  lemma SpeedsShape(h: Half<string>)
    ensures " min: " + SpeedValues(h) == Speeds(h)
  {
  }

  lemma TailRegroup(a: string, b: string, c: string, d: string, e: string, f: string, values: string)
    ensures (a + (b + c + (d + e))) + f + values == a + (b + c + (d + e + (f + values)))
  {
  }

  lemma TailShape(h: Half<string>)
    ensures "% complete) | Speed: min: " + SpeedValues(h) == "%" + (" complete) " + "|" + (" " + "Speed:" + Speeds(h)))
  {
    SpeedsShape(h);
    assert "% complete) | Speed: min: " == ("%" + (" complete) " + "|" + (" " + "Speed:"))) + " min: ";
    TailRegroup("%", " complete) ", "|", " ", "Speed:", " min: ", SpeedValues(h));
  }

  lemma RegroupTail(tag: string, sp: string, mb: string, x: string, pct: string, y: string, v: string)
    ensures tag + (sp + mb + x + pct + y) + v == tag + (sp + mb + x + pct + (y + v))
  {
  }

  lemma RegroupBar(a: string, b: string, c: string, d: string, e: string)
    ensures a + (b + (c + d + e)) == a + (b + c) + d + e
  {
  }

  function BeforeBar(tag: string, h: Half<string>): string {
    tag + " " + h.mb + " MB transferred (" + h.pct + ("%" + " complete) ")
  }

  /** The text of one direction, cut where the parser cuts it. */
  lemma HalfShape(tag: string, h: Half<string>)
    ensures PlainHalf(tag, h) == tag + (" " + h.mb + " ") + "MB transferred" + AfterAmount(h)
    ensures PlainHalf(tag, h) == BeforeBar(tag, h) + "|" + (" " + "Speed:" + Speeds(h))
  {
    var begin, values, section := "% complete) | Speed: min: ", SpeedValues(h), " " + "Speed:" + Speeds(h);
    var tail := " complete) " + "|" + section;
    Regroup8(tag, Amounts(h), h.min, " MB/s, max: ", h.max, " MB/s, avg: ", h.avg, " MB/s");
    RegroupTail(tag, " ", h.mb, " MB transferred (", h.pct, begin, values);
    TailShape(h);
    assert " MB transferred (" == " " + "MB transferred" + " (";
    RegroupAmount(tag, " ", h.mb, "MB transferred", h.pct, "%" + tail, " (");
    Regroup3(" (" + h.pct, "%", tail);
    RegroupBar(tag + " " + h.mb + " MB transferred (" + h.pct, "%", " complete) ", "|", section);
  }

  /** Each of the five texts converted, or nothing when one of them cannot be. */
  function ConvertHalf<T>(h: Half<string>, float: Float<T>): Option<Half<T>> {
    var mb :- float(h.mb);
    var pct :- float(h.pct);
    var min :- float(h.min);
    var max :- float(h.max);
    var avg :- float(h.avg);
    Some(Half(mb, pct, min, max, avg))
  }

  function Convert<T>(m: Metrics<string>, float: Float<T>): Option<Metrics<T>> {
    var up :- ConvertHalf(m.up, float);
    var down :- ConvertHalf(m.down, float);
    Some(Metrics(up, down))
  }

  lemma SpeedRead<T>(section: string, k: nat, name: string, v: string, float: Float<T>)
    requires k < |Split(section, ",")| && Split(section, ",")[k] == SpeedPart(name, v)
    requires IsNumeral(v) && |name| == 4 && name[0] in ['m', 'a']
    ensures ParseSpeed(section, k, name, float) == float(v)
  {
    SpeedParsed(name, v);
  }

  lemma SpeedsRead<T>(h: Half<string>, float: Float<T>)
    requires AreNumerals(h)
    ensures ParseSpeed(Speeds(h), 0, "min:", float) == float(h.min)
    ensures ParseSpeed(Speeds(h), 1, "max:", float) == float(h.max)
    ensures ParseSpeed(Speeds(h), 2, "avg:", float) == float(h.avg)
  {
    SpeedsParsed(h);
    SpeedRead(Speeds(h), 0, "min:", h.min, float);
    SpeedRead(Speeds(h), 1, "max:", h.max, float);
    SpeedRead(Speeds(h), 2, "avg:", h.avg, float);
  }

  lemma StepsMakeHalf<T>(part: string, tag: string, left: string, amount: string, section: string, speeds: string,
                         h: Half<string>, float: Float<T>)
    requires tag != "" && Split(part, "MB transferred") == [left, section]
    requires Field(left, tag, 1) == Some(amount) && Strip(amount) == h.mb && PercentText(section) == h.pct
    requires SpeedSection(part) == Some(speeds)
    requires ParseSpeed(speeds, 0, "min:", float) == float(h.min)
    requires ParseSpeed(speeds, 1, "max:", float) == float(h.max)
    requires ParseSpeed(speeds, 2, "avg:", float) == float(h.avg)
    ensures ParseHalf(part, tag, float) == ConvertHalf(h, float)
  {
  }

  lemma PartsOfHalf(tag: string, h: Half<string>)
    requires AreNumerals(h) && IsTag(tag)
    ensures Split(PlainHalf(tag, h), "MB transferred") == [tag + (" " + h.mb + " "), AfterAmount(h)]
    ensures SpeedSection(PlainHalf(tag, h)) == Some(Speeds(h))
  {
    HalfShape(tag, h);
    NumeralFree(h.mb, 'M');
    AmountParsed(tag + (" " + h.mb + " "), h);
    BeforeBarFree(tag, h);
    SectionParsed(BeforeBar(tag, h), h);
  }

  /** One direction is read back: the parser converts exactly the five texts that were printed. */
  lemma HalfParsed<T>(tag: string, h: Half<string>, float: Float<T>)
    requires AreNumerals(h) && IsTag(tag)
    ensures ParseHalf(PlainHalf(tag, h), tag, float) == ConvertHalf(h, float)
  {
    PartsOfHalf(tag, h);
    AmountText(tag, h.mb);
    PercentParsed(h);
    SpeedsRead(h, float);
    StepsMakeHalf(PlainHalf(tag, h), tag, tag + (" " + h.mb + " "), " " + h.mb + " ", AfterAmount(h), Speeds(h), h,
        float);
  }

  lemma BeforeBarFree(tag: string, h: Half<string>)
    requires AreNumerals(h) && IsTag(tag)
    ensures '|' !in BeforeBar(tag, h)
  {
    NumeralFree(h.mb, '|');
    NumeralFree(h.pct, '|');
  }

  // ---- The two directions ----

  /** Every bar is followed by something that is not a bar. */
  ghost predicate SingleBars(s: string) {
    forall i :: 0 <= i < |s| && s[i] == '|' ==> i + 1 < |s| && s[i + 1] != '|'
  }

  lemma NoDoubleBar(a: string, b: string, j: nat)
    requires SingleBars(a) && j < |a|
    ensures !OccursAt(a + b, "||", j)
  {
    OccursChar(a + b, "||", j, 0);
    OccursChar(a + b, "||", j, 1);
  }

  lemma SplitBars(a: string, b: string)
    requires SingleBars(a) && SingleBars(b)
    ensures Split(a + "||" + b, "||") == [a, b]
  {
    forall j | 0 <= j < |a| ensures !OccursAt(a + "||" + b, "||", j) {
      Regroup3(a, "||", b);
      NoDoubleBar(a, "||" + b, j);
    }
    CutAt(a, "||", b);
    forall j | 0 <= j < |b| ensures !OccursAt(b, "||", j) {
      assert b + "" == b;
      NoDoubleBar(b, "", j);
    }
  }

  lemma HalfBars(tag: string, h: Half<string>)
    requires AreNumerals(h) && IsTag(tag)
    ensures SingleBars(PlainHalf(tag, h) + " ") && SingleBars(" " + PlainHalf(tag, h))
  {
    HalfShape(tag, h);
    BeforeBarFree(tag, h);
    SpeedsFree(h, '|');
    OneBar(BeforeBar(tag, h), " " + "Speed:" + Speeds(h));
  }

  lemma OneBar(a: string, b: string)
    requires '|' !in a && '|' !in b && b != ""
    ensures SingleBars(a + "|" + b + " ") && SingleBars(" " + (a + "|" + b))
  {
  }

  lemma HalfTight(tag: string, h: Half<string>)
    requires IsTag(tag)
    ensures Tight(PlainHalf(tag, h))
  {
    var s := PlainHalf(tag, h);
    assert s[0] == tag[0] && s[|s| - 1] == 's';
  }

  lemma MiddleBars(a: string, b: string)
    ensures a + " || " + b == (a + " ") + "||" + (" " + b)
  {
  }

  lemma PartsMake<T>(message: string, up: string, down: string, float: Float<T>)
    requires Split(message, "||") == [up + " ", " " + down] && Tight(up) && Tight(down)
    ensures ParseMetrics(message, float)
            == match (ParseHalf(up, "UP:", float), ParseHalf(down, "DOWN:", float))
               case (Some(u), Some(d)) => Some(Metrics(u, d))
               case _ => None
  {
    StripSpaces(up);
    StripSpaces(down);
  }

  /** Whatever the conversion does to each text, the parser on the printed message without its colours converts exactly
      the ten texts that were printed, each in its place. */
  lemma MetricsParsed<T>(m: Metrics<string>, float: Float<T>)
    requires AreNumerals(m.up) && AreNumerals(m.down)
    ensures ParseMetrics(StripAnsi(Message(m)), float) == Convert(m, float)
  {
    MessageStrips(m);
    var up, down := PlainHalf("UP:", m.up), PlainHalf("DOWN:", m.down);
    MiddleBars(up, down);
    HalfBars("UP:", m.up);
    HalfBars("DOWN:", m.down);
    SplitBars(up + " ", " " + down);
    HalfTight("UP:", m.up);
    HalfTight("DOWN:", m.down);
    PartsMake(PlainMessage(m), up, down, float);
    HalfParsed("UP:", m.up, float);
    HalfParsed("DOWN:", m.down, float);
  }

  // ---- Two decimals ----

  /** A number of hundredths with two decimals, as `:.2f` prints it. */
  function Show(n: nat): string {
    Print(n / 100) + "." + [DigitChar(n / 10 % 10), DigitChar(n % 10)]
  }

  /** The hundredths a text with two decimals denotes. */
  function Hundredths(s: string): Option<nat> {
    var k := |s| - 3;
    if k >= 1 && AllDigits(s[..k]) && s[k] == '.' && AllDigits(s[k + 1..])
    then Some(100 * Value(s[..k]) + Value(s[k + 1..]))
    else None
  }

  function MapHalf<S, T>(h: Half<S>, f: S -> T): Half<T> {
    Half(f(h.mb), f(h.pct), f(h.min), f(h.max), f(h.avg))
  }

  function ShowAll(m: Metrics<nat>): Metrics<string> {
    Metrics(MapHalf(m.up, Show), MapHalf(m.down, Show))
  }

  lemma TwoDigits(a: nat, b: nat)
    requires a < 10 && b < 10
    ensures var s := [DigitChar(a), DigitChar(b)]; AllDigits(s) && Value(s) == 10 * a + b
  {
    var s := [DigitChar(a), DigitChar(b)];
    assert s[..1] == [DigitChar(a)] && [DigitChar(a)][..0] == "";
    assert Value("") == 0;
  }

  lemma ShowRead(n: nat)
    ensures Hundredths(Show(n)) == Some(n) && IsNumeral(Show(n))
  {
    var s, whole, cents := Show(n), Print(n / 100), [DigitChar(n / 10 % 10), DigitChar(n % 10)];
    TwoDigits(n / 10 % 10, n % 10);
    ValueOfPrint(n / 100);
    assert s[..|s| - 3] == whole && s[|s| - 2..] == cents;
  }

  /** Printing ten numbers of hundredths, removing the colours and parsing gives the ten numbers as the conversion
      represents them, each in its place: for any conversion that reads a two-decimal numeral as its representation of
      the number. */
  lemma MetricsRoundTrip<F(!new)>(m: Metrics<nat>, float: Float<F>, represent: nat -> F)
    requires forall n: nat :: float(Show(n)) == Some(represent(n))
    ensures ParseMetrics(StripAnsi(Message(ShowAll(m))), float)
            == Some(Metrics(MapHalf(m.up, represent), MapHalf(m.down, represent)))
  {
    ShownNumerals(m.up);
    ShownNumerals(m.down);
    MetricsParsed(ShowAll(m), float);
    HalfConverts(m.up, float, represent);
    HalfConverts(m.down, float, represent);
  }

  lemma ShownNumerals(h: Half<nat>)
    ensures AreNumerals(MapHalf(h, Show))
  {
    ShowRead(h.mb);
    ShowRead(h.pct);
    ShowRead(h.min);
    ShowRead(h.max);
    ShowRead(h.avg);
  }

  lemma HalfConverts<F(!new)>(h: Half<nat>, float: Float<F>, represent: nat -> F)
    requires forall n: nat :: float(Show(n)) == Some(represent(n))
    ensures ConvertHalf(MapHalf(h, Show), float) == Some(MapHalf(h, represent))
  {
  }

  /** In exact arithmetic the ten numbers themselves come back. */
  lemma ExactRoundTrip(m: Metrics<nat>)
    ensures ParseMetrics(StripAnsi(Message(ShowAll(m))), Hundredths) == Some(m)
  {
    forall n: nat ensures Hundredths(Show(n)) == Some(n) {
      ShowRead(n);
    }
    MetricsRoundTrip(m, Hundredths, (n: nat) => n);
  }

  /** Without the word before the speeds, the text after the last bar is taken for them as it is. */
  lemma SpeedsWithoutWord(before: string, last: string)
    requires '|' !in before && '|' !in last && Find(last, "Speed:") == -1
    ensures SpeedSection(before + "|" + last) == Some(last)
  {
    SplitTwo(before, "|", last, '|');
  }

  /** A message without two parts is not a metrics line. */
  lemma OnePartIsNothing<T>(message: string, float: Float<T>)
    requires Find(message, "||") == -1
    ensures ParseMetrics(message, float) == None
  {
  }

  // ---- The line, in full ----

  const SAMPLE: Half<string> := Half("1.25", "10.00", "2.50", "3.75", "3.00")

  lemma SampleMoved()
    ensures " " + SAMPLE.mb + " MB transferred (" + SAMPLE.pct == " 1.25 MB transferred (10.00"
  {
    assert " " + "1.25" == " 1.25";
    assert " 1.25" + " MB transferred (" == " 1.25 MB transferred (";
    assert " 1.25 MB transferred (" + "10.00" == " 1.25 MB transferred (10.00";
  }

  lemma SampleAmounts()
    ensures Amounts(SAMPLE) + SAMPLE.min == " 1.25 MB transferred (10.00% complete) | Speed: min: 2.50"
  {
    SampleMoved();
    var moved := " 1.25 MB transferred (10.00";
    assert moved + "% complete) | Speed: min: " == " 1.25 MB transferred (10.00% complete) | Speed: min: ";
    assert " 1.25 MB transferred (10.00% complete) | Speed: min: " + "2.50"
        == " 1.25 MB transferred (10.00% complete) | Speed: min: 2.50";
  }

  lemma SampleSpeeds()
    ensures " MB/s, max: " + SAMPLE.max + " MB/s, avg: " + SAMPLE.avg + " MB/s"
            == " MB/s, max: 3.75 MB/s, avg: 3.00 MB/s"
  {
    assert " MB/s, max: " + "3.75" == " MB/s, max: 3.75";
    assert " MB/s, max: 3.75" + " MB/s, avg: " == " MB/s, max: 3.75 MB/s, avg: ";
    assert " MB/s, max: 3.75 MB/s, avg: " + "3.00" == " MB/s, max: 3.75 MB/s, avg: 3.00";
    assert " MB/s, max: 3.75 MB/s, avg: 3.00" + " MB/s" == " MB/s, max: 3.75 MB/s, avg: 3.00 MB/s";
  }

  /** One direction of the line in full, on an example. */
  lemma PlainSample(tag: string)
    ensures PlainHalf(tag, SAMPLE)
            == tag + (" 1.25 MB transferred (10.00% complete) | Speed: min: 2.50"
                      + " MB/s, max: 3.75 MB/s, avg: 3.00 MB/s")
  {
    SampleAmounts();
    SampleSpeeds();
    var h := SAMPLE;
    RegroupSample(tag, Amounts(h), h.min, " MB/s, max: ", h.max, " MB/s, avg: ", h.avg, " MB/s");
  }

  lemma RegroupSample(a: string, b: string, c: string, d: string, e: string, f: string, g: string, h: string)
    ensures a + b + c + d + e + f + g + h == a + ((b + c) + (d + e + f + g + h))
  {
  }
}
