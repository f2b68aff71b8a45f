/**
 * Morning check-in extraction of the coaching service (src/services/openai.ts):
 * the strict one-line template parser, the deterministic part of the
 * AI-assisted fallback, and the choice between generated text and a fixed
 * fallback reply. Completions of the text-generation provider and the JSON
 * decoder are inputs.
 */
module Checkin {
  import opened Wrappers
  import opened Text

  /** One morning self-report. Sleep hours are an exact decimal rather than a float. */
  datatype MorningCheckin = MorningCheckin(sleep: real, mood: int, energy: int, notes: string)

  // ---------------------------------------------------------------------------
  // Numbers as the strict parser reads them
  // ---------------------------------------------------------------------------

  function Pow10(n: nat): (r: nat)
    ensures r >= 1
  {
    if n == 0 then 1 else 10 * Pow10(n - 1)
  }

  /** `parseInt(ds, 10)` of a run of ASCII digits (leading zeros allowed). */
  function DigitsValue(ds: string): (r: nat)
    requires AllDigits(ds)
    ensures r < Pow10(|ds|)
  {
    if ds == [] then 0
    else
      var r0 := DigitsValue(ds[..|ds| - 1]);
      assert r0 + 1 <= Pow10(|ds| - 1);
      10 * r0 + (ds[|ds| - 1] as int - '0' as int)
  }

  /** Reading digits one after the other: the value of `a + b` is `a`'s value shifted left by `|b|` places plus `b`'s. */
  lemma {:induction false} DigitsValueConcat(a: string, b: string)
    requires AllDigits(a) && AllDigits(b)
    ensures AllDigits(a + b)
    ensures DigitsValue(a + b) == DigitsValue(a) * Pow10(|b|) + DigitsValue(b)
  {
    if b == [] {
      assert a + b == a;
    } else {
      var b' := b[..|b| - 1];
      var d := b[|b| - 1] as int - '0' as int;
      LastOfConcat(a, b);
      DigitsValueConcat(a, b');
      assert DigitsValue(a + b) == 10 * DigitsValue(a + b') + d;
      assert DigitsValue(b) == 10 * DigitsValue(b') + d;
      assert Pow10(|b|) == 10 * Pow10(|b'|);
      ShiftLeft(DigitsValue(a), Pow10(|b'|), DigitsValue(b'), d);
    }
  }

  /** Dropping the last character of `a + b`, for a non-empty `b`. */
  lemma LastOfConcat(a: string, b: string)
    requires b != []
    ensures (a + b)[..|a + b| - 1] == a + b[..|b| - 1] && (a + b)[|a + b| - 1] == b[|b| - 1]
  {
    assert (a + b)[..|a + b| - 1] == a + b[..|b| - 1];
  }

  lemma ShiftLeft(x: int, p: int, y: int, d: int)
    ensures 10 * (x * p + y) + d == x * (10 * p) + (10 * y + d)
  {
  }

  /** A whole number plus the fraction `num / den` of one, scaled back up by `den`. */
  lemma FractionScale(whole: nat, num: nat, den: nat, total: nat)
    requires num < den && total == whole * den + num
    ensures var r := whole as real + num as real / den as real;
      && r == total as real / den as real
      && whole as real <= r < whole as real + 1.0
  {
    FractionBelowOne(num, den);
    var q := num as real / den as real;
    assert q * den as real == num as real;
    assert (whole as real + q) * den as real == whole as real * den as real + q * den as real;
    assert total as real == whole as real * den as real + num as real;
  }

  /**
   * `parseFloat` of `intDigits`, followed by `.` and `fracDigits` when those
   * are present, computed exactly: the digits read as one decimal number,
   * scaled down by one power of ten per fraction digit.
   */
  function DecimalValue(intDigits: string, fracDigits: string): (r: real)
    requires AllDigits(intDigits) && AllDigits(fracDigits)
    ensures r == DigitsValue(intDigits + fracDigits) as real / Pow10(|fracDigits|) as real
    ensures DigitsValue(intDigits) as real <= r < DigitsValue(intDigits) as real + 1.0
  {
    var whole := DigitsValue(intDigits);
    var num := DigitsValue(fracDigits);
    var den := Pow10(|fracDigits|);
    DigitsValueConcat(intDigits, fracDigits);
    FractionScale(whole, num, den, DigitsValue(intDigits + fracDigits));
    whole as real + num as real / den as real
  }

  /** Hours written without a fraction read as that whole number. */
  lemma WholeHours(ds: string)
    requires AllDigits(ds)
    ensures DecimalValue(ds, "") == DigitsValue(ds) as real
  {
    assert Pow10(0) == 1;
    assert DigitsValue("") == 0;
  }

  /** `Sleep 6.5` reads as six and a half hours. */
  lemma DecimalValueExample()
    ensures DecimalValue("6", "5") == 6.5
  {
    assert DigitsValue("6") == 6 by { assert "6"[..0] == ""; }
    assert DigitsValue("5") == 5 by { assert "5"[..0] == ""; }
  }

  lemma FractionBelowOne(num: nat, den: nat)
    requires num < den
    ensures 0.0 <= num as real / den as real < 1.0
  {
    var q := num as real / den as real;
    assert q * den as real == num as real;
  }

  // ---------------------------------------------------------------------------
  // The strict parser
  //
  // The pattern is
  //   /Sleep\s+(\d+(?:\.\d+)?)h?\s*\|\s*Mood\s+(\d+)\s*\|\s*Energy\s+(\d+)\s*\|\s*Notes:\s*(.+)/i
  // searched for anywhere in the message. Each piece below is one stretch of it.
  // Every greedy quantifier in it is followed by a character its class cannot
  // contain, so backtracking never changes a capture, except for the final
  // `\s*(.+)`, handled by RestOfLine.
  // ---------------------------------------------------------------------------

  /** `\s+(\d+)`: at least one whitespace, then a digit run; the digits and what follows. */
  function SpacedNumber(t: string): (r: Option<(string, string)>)
    ensures r.Some? ==> |r.value.0| > 0 && AllDigits(r.value.0)
    ensures r.Some? ==> |r.value.1| < |t| && r.value.1 == t[|t| - |r.value.1|..]
  {
    var w := Span(t, IsSpace);
    var d := Span(t[w..], IsDigit);
    if w == 0 || d == 0 then None
    else Some((t[w..w + d], t[w + d..]))
  }

  /** `\s+(\d+(?:\.\d+)?)h?`: the sleep hours and what follows them. */
  function SleepHours(t: string): (r: Option<(real, string)>)
    ensures r.Some? ==> |r.value.1| < |t| && r.value.1 == t[|t| - |r.value.1|..]
  {
    var (ds, rest) :- SpacedNumber(t);
    Some(FractionAndUnit(ds, rest))
  }

  /** The text of the optional fraction `.<digits>`. */
  function FracText(frac: string): string {
    if frac == [] then "" else "." + frac
  }

  /**
   * `(?:\.\d+)?`: the fraction digits and what follows them. The fraction is
   * taken only when at least one digit follows the point.
   */
  function Fraction(rest: string): (r: (string, string))
    ensures AllDigits(r.0) && rest == FracText(r.0) + r.1
  {
    var f := if |rest| >= 1 && rest[0] == '.' then Span(rest[1..], IsDigit) else 0;
    if f > 0 then
      assert rest == "." + (rest[1..1 + f] + rest[1 + f..]);
      (rest[1..1 + f], rest[1 + f..])
    else ("", rest)
  }

  /** `h?`, in either letter case: what follows the optional unit. */
  function AfterUnit(after: string): (r: string)
    ensures |r| <= |after| && r == after[|after| - |r|..]
  {
    if after != [] && Lower(after[0]) == 'h' then after[1..] else after
  }

  /** `(?:\.\d+)?h?` after the whole hours `ds`: the hours read and what follows. */
  function FractionAndUnit(ds: string, rest: string): (r: (real, string))
    requires AllDigits(ds)
    ensures EndsWith(rest, r.1)
  {
    UnitRestIsSuffix(rest);
    var p := Fraction(rest);
    (DecimalValue(ds, p.0), AfterUnit(p.1))
  }

  /** A suffix of `after` is a suffix of any text that ends with `after`. */
  lemma SuffixBehind(whole: string, front: string, after: string, r: string)
    ensures whole == front + after && |r| <= |after| && r == after[|after| - |r|..] ==>
      |r| <= |whole| && whole[|whole| - |r|..] == r
  {
    if whole == front + after && |r| <= |after| {
      assert whole[|whole| - |r|..] == after[|after| - |r|..];
    }
  }

  /** What follows the optional fraction and unit is a suffix of the text. */
  lemma UnitRestIsSuffix(rest: string)
    ensures EndsWith(rest, AfterUnit(Fraction(rest).1))
  {
    var p := Fraction(rest);
    SuffixBehind(rest, FracText(p.0), p.1, AfterUnit(p.1));
  }

  /** `\s*\|\s*` followed by the keyword `kw` in any letter case; what follows the keyword. */
  function Separator(t: string, kw: string): (r: Option<string>)
    ensures r.Some? ==> |r.value| < |t| && r.value == t[|t| - |r.value|..]
  {
    var a := t[Span(t, IsSpace)..];
    if a == [] || a[0] != '|' then None
    else
      var b := a[1..];
      var c := b[Span(b, IsSpace)..];
      if StartsWithIgnoreCase(c, kw) then Some(c[|kw|..]) else None
  }

  /**
   * How far the greedy `\s*` before `(.+)` has to give back: the largest
   * index at most `k` holding a character `.` matches, if there is one.
   */
  function BackOff(r: string, k: nat): (res: Option<nat>)
    ensures res.Some? ==> res.value <= k && res.value < |r| && IsLineChar(r[res.value])
    ensures res.Some? ==> forall j :: res.value < j <= k && j < |r| ==> !IsLineChar(r[j])
    ensures res.None? ==> forall j :: 0 <= j <= k && j < |r| ==> !IsLineChar(r[j])
  {
    if k < |r| && IsLineChar(r[k]) then Some(k)
    else if k == 0 then None
    else BackOff(r, k - 1)
  }

  /**
   * `\s*(.+)`: the capture `.+` makes after the whitespace run, up to the next
   * line terminator. When the whitespace run reaches the end of the text the
   * regex gives whitespace back to `.+`; when only line terminators can be
   * given back there is no match.
   */
  function RestOfLine(r: string): (c: Option<string>)
    ensures c.Some? ==> |c.value| > 0 && NoLineTerminators(c.value)
  {
    match BackOff(r, Span(r, IsSpace))
    case None => None
    case Some(k) => Some(r[k..k + Span(r[k..], IsLineChar)])
  }

  /** The notes field: the capture of `\s*(.+)`, trimmed. */
  function Notes(r: string): (n: Option<string>)
    ensures n.Some? ==> IsTrimmed(n.value) && NoLineTerminators(n.value)
  {
    var line :- RestOfLine(r);
    var trimmed := Trim(line);
    assert NoLineTerminators(trimmed) by {
      var i := Span(line, IsSpace);
      assert forall k :: 0 <= k < |trimmed| ==> trimmed[k] == line[i + k];
    }
    Some(trimmed)
  }

  /** `\s*\|\s*<kw>\s+(\d+)`: a numeric field; its digits and what follows. */
  function NumberField(t: string, kw: string): (r: Option<(string, string)>)
    ensures r.Some? ==> |r.value.0| > 0 && AllDigits(r.value.0)
    ensures r.Some? ==> |r.value.1| < |t| && r.value.1 == t[|t| - |r.value.1|..]
  {
    var rest :- Separator(t, kw);
    SpacedNumber(rest)
  }

  /** `\s*\|\s*Notes:\s*(.+)`: the notes field, trimmed. */
  function NotesField(t: string): (r: Option<string>)
    ensures r.Some? ==> IsTrimmed(r.value) && NoLineTerminators(r.value)
  {
    var rest :- Separator(t, "notes:");
    Notes(rest)
  }

  /** The pattern matched at the very start of `t`, anchored there. */
  function MatchHere(t: string): (r: Option<MorningCheckin>)
    ensures r.Some? ==> r.value.mood >= 0 && r.value.energy >= 0 && r.value.sleep >= 0.0
    ensures r.Some? ==> IsTrimmed(r.value.notes) && NoLineTerminators(r.value.notes)
  {
    if !StartsWithIgnoreCase(t, "sleep") then None
    else
      var (sleep, r1) :- SleepHours(t[5..]);
      var (mood, r2) :- NumberField(r1, "mood");
      var (energy, r3) :- NumberField(r2, "energy");
      var notes :- NotesField(r3);
      Some(MorningCheckin(sleep, DigitsValue(mood), DigitsValue(energy), notes))
  }

  /**
   * The regex search from index `i` on, for a pattern whose anchored match is
   * `m`: the match at the leftmost start position where the pattern matches.
   */
  function FirstMatch<R>(s: string, i: nat, m: string -> Option<R>): (r: Option<R>)
    decreases |s| + 1 - i
    ensures r.None? <==> forall k :: i <= k <= |s| ==> m(s[k..]).None?
    ensures r.Some? ==> exists k :: && i <= k <= |s| && m(s[k..]) == r
                                    && forall j :: i <= j < k ==> m(s[j..]).None?
  {
    if i > |s| then None
    else match m(s[i..])
      case Some(c) => Some(c)
      case None => FirstMatch(s, i + 1, m)
  }

  /** `parseMorningCheckin`: the strict template parser; `None` plays `null`. */
  function ParseStrict(message: string): (r: Option<MorningCheckin>)
    ensures r.None? <==> forall k :: 0 <= k <= |message| ==> MatchHere(message[k..]).None?
    ensures r.Some? ==> r.value.mood >= 0 && r.value.energy >= 0 && r.value.sleep >= 0.0
    ensures r.Some? ==> IsTrimmed(r.value.notes) && NoLineTerminators(r.value.notes)
  {
    FirstMatch(message, 0, MatchHere)
  }

  // ---------------------------------------------------------------------------
  // What the strict parser accepts: the template written out
  // ---------------------------------------------------------------------------

  /**
   * One written separator `\s*\|\s*<keyword>`: the whitespace before and
   * after the bar, and the keyword as typed.
   */
  datatype Bar = Bar(before: string, after: string, kw: string)

  predicate BarOk(b: Bar, kw: string) {
    AllSpaces(b.before) && AllSpaces(b.after) && SpelledAs(b.kw, kw)
  }

  /** The separator `b` followed by `rest`. */
  function SeparatorText(b: Bar, rest: string): string {
    b.before + ("|" + (b.after + (b.kw + rest)))
  }

  /**
   * One way of writing the template
   * `Sleep <n>[h] | Mood <n> | Energy <n> | Notes: <text>`: each keyword in
   * any letter case, each whitespace run as typed, the digit runs, an
   * optional `h`, and the text `(.+)` captures after `Notes:`.
   */
  datatype Written = Written(
    sleepKw: string, sleepGap: string, intDigits: string, fracDigits: string, unit: string,
    moodBar: Bar, moodGap: string, moodDigits: string,
    energyBar: Bar, energyGap: string, energyDigits: string,
    notesBar: Bar, notesGap: string, capture: string)

  /** A whitespace run where the pattern has `\s+`. */
  predicate Gap(s: string) {
    |s| > 0 && AllSpaces(s)
  }

  predicate UnitOk(unit: string) {
    unit == "" || (|unit| == 1 && Lower(unit[0]) == 'h')
  }

  predicate WellFormed(w: Written) {
    && SpelledAs(w.sleepKw, "sleep") && Gap(w.sleepGap)
    && |w.intDigits| > 0 && AllDigits(w.intDigits) && AllDigits(w.fracDigits) && UnitOk(w.unit)
    && BarOk(w.moodBar, "mood") && Gap(w.moodGap) && |w.moodDigits| > 0 && AllDigits(w.moodDigits)
    && BarOk(w.energyBar, "energy") && Gap(w.energyGap) && |w.energyDigits| > 0 && AllDigits(w.energyDigits)
    && BarOk(w.notesBar, "notes:") && AllSpaces(w.notesGap)
  }

  /**
   * `capture` is what `\s*(.+)` captures when `tail` follows it: a non-empty
   * run of characters `.` matches, ended by a line terminator or the end of
   * the text. It starts with whitespace only when the greedy `\s*` had to
   * give back one character because nothing but line terminators follows.
   */
  predicate CaptureEnds(capture: string, tail: string) {
    && capture != [] && NoLineTerminators(capture)
    && (tail == [] || IsLineTerminator(tail[0]))
    && (IsSpace(capture[0]) ==> |capture| == 1 && forall j :: 0 <= j < |tail| ==> IsLineTerminator(tail[j]))
  }

  /** The message text written for `w`, followed by `tail`. */
  function Render(w: Written, tail: string): string {
    w.sleepKw + HoursText(w, tail)
  }

  /** The text of `Render(w, tail)` from the whitespace after `Sleep` on. */
  function HoursText(w: Written, tail: string): string {
    w.sleepGap + (w.intDigits + (FracText(w.fracDigits) + (w.unit + MoodText(w, tail))))
  }

  /** The text of `Render(w, tail)` from the separator before the mood on. */
  function MoodText(w: Written, tail: string): string {
    SeparatorText(w.moodBar, w.moodGap + (w.moodDigits + EnergyText(w, tail)))
  }

  /** The text of `Render(w, tail)` from the separator before the energy on. */
  function EnergyText(w: Written, tail: string): string {
    SeparatorText(w.energyBar, w.energyGap + (w.energyDigits + NotesText(w, tail)))
  }

  /** The text of `Render(w, tail)` from the separator before the notes on. */
  function NotesText(w: Written, tail: string): string {
    SeparatorText(w.notesBar, w.notesGap + (w.capture + tail))
  }

  lemma SeparatorTextStart(b: Bar, rest: string)
    requires AllSpaces(b.before)
    ensures var t := SeparatorText(b, rest); t != [] && (t[0] == '|' || IsSpace(t[0]))
  {
    if b.before == [] {
      assert SeparatorText(b, rest)[0] == '|';
    } else {
      assert SeparatorText(b, rest)[0] == b.before[0];
    }
  }

  /** A keyword spelled in any case starts with what its lower-case literal starts with. */
  lemma SpelledStart(spelled: string, kw: string)
    requires SpelledAs(spelled, kw) && |kw| > 0 && !IsSpace(kw[0])
    ensures Lower(spelled[0]) == kw[0] && !IsSpace(spelled[0])
  {
  }

  lemma SeparatorOf(b: Bar, kw: string, rest: string)
    requires BarOk(b, kw) && |kw| > 0 && !IsSpace(kw[0])
    ensures Separator(SeparatorText(b, rest), kw) == Some(rest)
  {
    var t := SeparatorText(b, rest);
    var c := b.kw + rest;
    var bb := b.after + c;
    var bar := "|" + bb;
    SpanOfPrefix(b.before, bar, IsSpace);
    assert t[|b.before|..] == bar;
    assert bar[1..] == bb;
    SpelledStart(b.kw, kw);
    SpanOfPrefix(b.after, c, IsSpace);
    assert bb[|b.after|..] == c;
    assert c[|kw|..] == rest;
  }

  /** A separator followed by one keyword does not introduce another. */
  lemma SeparatorOther(b: Bar, kw: string, other: string, rest: string)
    requires BarOk(b, kw) && |kw| > 0 && !IsSpace(kw[0])
    requires |other| > 0 && other[0] != kw[0]
    ensures Separator(SeparatorText(b, rest), other) == None
  {
    var t := SeparatorText(b, rest);
    var c := b.kw + rest;
    var bb := b.after + c;
    var bar := "|" + bb;
    SpanOfPrefix(b.before, bar, IsSpace);
    assert t[|b.before|..] == bar;
    assert bar[1..] == bb;
    SpelledStart(b.kw, kw);
    SpanOfPrefix(b.after, c, IsSpace);
    assert bb[|b.after|..] == c;
    assert c[0] == b.kw[0];
  }

  lemma SpacedNumberOf(gap: string, ds: string, rest: string)
    requires Gap(gap) && |ds| > 0 && AllDigits(ds)
    requires rest == [] || !IsDigit(rest[0])
    ensures SpacedNumber(gap + (ds + rest)) == Some((ds, rest))
  {
    var t := gap + (ds + rest);
    MiddleOf(gap, ds, rest);
    SpanOfPrefix(gap, ds + rest, IsSpace);
    SpanOfPrefix(ds, rest, IsDigit);
    var w, d := SpacedNumberIs(t);
  }

  lemma FractionOf(frac: string, after: string)
    requires AllDigits(frac)
    requires after != [] && after[0] != '.' && !IsDigit(after[0])
    ensures Fraction(FracText(frac) + after) == (frac, after)
  {
    var rest := FracText(frac) + after;
    if frac != [] {
      assert rest == "." + (frac + after);
      assert rest[1..] == frac + after;
      SpanOfPrefix(frac, after, IsDigit);
      assert rest[1..1 + |frac|] == frac;
      assert rest[1 + |frac|..] == after;
    } else {
      assert rest == after;
    }
  }

  lemma FractionAndUnitOf(ds: string, frac: string, unit: string, rest: string)
    requires AllDigits(ds) && AllDigits(frac) && UnitOk(unit)
    requires rest != [] && (rest[0] == '|' || IsSpace(rest[0]))
    ensures FractionAndUnit(ds, FracText(frac) + (unit + rest)) == (DecimalValue(ds, frac), rest)
  {
    var after := unit + rest;
    assert after[0] == 'h' || after[0] == 'H' || after[0] == '|' || IsSpace(after[0]);
    FractionOf(frac, after);
    if unit != [] {
      assert after[1..] == rest;
    } else {
      assert after == rest;
    }
  }

  lemma SleepHoursOf(gap: string, ds: string, frac: string, unit: string, rest: string)
    requires Gap(gap) && |ds| > 0 && AllDigits(ds) && AllDigits(frac) && UnitOk(unit)
    requires rest != [] && (rest[0] == '|' || IsSpace(rest[0]))
    ensures SleepHours(gap + (ds + (FracText(frac) + (unit + rest)))) == Some((DecimalValue(ds, frac), rest))
  {
    var more := FracText(frac) + (unit + rest);
    assert more[0] == '.' || more[0] == 'h' || more[0] == 'H' || more[0] == '|' || IsSpace(more[0]);
    SpacedNumberOf(gap, ds, more);
    FractionAndUnitOf(ds, frac, unit, rest);
  }

  /** Where the middle part of a three-part text sits. */
  lemma MiddleOf(a: string, m: string, z: string)
    ensures var r := a + (m + z);
      && r[|a|..] == m + z && r[|a|..|a| + |m|] == m && r[|a| + |m|..] == z
      && forall j :: |a| < j < |r| && |m| == 1 ==> r[j] == z[j - |a| - 1]
  {
  }

  /** Where the greedy `\s*` ends when the capture starts with a character `.` and `\s` both match. */
  lemma GiveBackOf(gap: string, capture: string, tail: string)
    requires AllSpaces(gap) && CaptureEnds(capture, tail) && IsSpace(capture[0])
    ensures var r := gap + (capture + tail);
      Span(r, IsSpace) == |r| && BackOff(r, |r|) == Some(|gap|)
  {
    var r := gap + (capture + tail);
    MiddleOf(gap, capture, tail);
    assert r + [] == r;
    SpanOfPrefix(r, [], IsSpace);
  }

  lemma RestOfLineOf(gap: string, capture: string, tail: string)
    requires AllSpaces(gap) && CaptureEnds(capture, tail)
    ensures RestOfLine(gap + (capture + tail)) == Some(capture)
  {
    var r := gap + (capture + tail);
    MiddleOf(gap, capture, tail);
    if !IsSpace(capture[0]) {
      SpanOfPrefix(gap, capture + tail, IsSpace);
      assert BackOff(r, |gap|) == Some(|gap|);
    } else {
      GiveBackOf(gap, capture, tail);
    }
    SpanOfPrefix(capture, tail, IsLineChar);
  }

  lemma NumberFieldOf(b: Bar, kw: string, gap: string, ds: string, rest: string)
    requires BarOk(b, kw) && |kw| > 0 && !IsSpace(kw[0])
    requires Gap(gap) && |ds| > 0 && AllDigits(ds) && (rest == [] || !IsDigit(rest[0]))
    ensures NumberField(SeparatorText(b, gap + (ds + rest)), kw) == Some((ds, rest))
  {
    SeparatorOf(b, kw, gap + (ds + rest));
    SpacedNumberOf(gap, ds, rest);
  }

  lemma NotesFieldOf(b: Bar, gap: string, capture: string, tail: string)
    requires BarOk(b, "notes:") && AllSpaces(gap) && CaptureEnds(capture, tail)
    ensures NotesField(SeparatorText(b, gap + (capture + tail))) == Some(Trim(capture))
  {
    SeparatorOf(b, "notes:", gap + (capture + tail));
    RestOfLineOf(gap, capture, tail);
  }

  /** How MatchHere assembles its result from the matches of its four stretches. */
  lemma MatchHereOf(kw: string, r0: string, sleep: real, r1: string, mood: string, r2: string,
                    energy: string, r3: string, notes: string)
    requires AllDigits(mood) && AllDigits(energy)
    requires StartsWithIgnoreCase(kw + r0, "sleep") && (kw + r0)[5..] == r0
    requires SleepHours(r0) == Some((sleep, r1))
    requires NumberField(r1, "mood") == Some((mood, r2))
    requires NumberField(r2, "energy") == Some((energy, r3))
    requires NotesField(r3) == Some(notes)
    ensures MatchHere(kw + r0) == Some(MorningCheckin(sleep, DigitsValue(mood), DigitsValue(energy), notes))
  {
  }

  lemma HoursTextOf(w: Written, tail: string)
    requires WellFormed(w)
    ensures SleepHours(HoursText(w, tail)) == Some((DecimalValue(w.intDigits, w.fracDigits), MoodText(w, tail)))
  {
    SeparatorTextStart(w.moodBar, w.moodGap + (w.moodDigits + EnergyText(w, tail)));
    SleepHoursOf(w.sleepGap, w.intDigits, w.fracDigits, w.unit, MoodText(w, tail));
  }

  lemma MoodTextOf(w: Written, tail: string)
    requires WellFormed(w)
    ensures NumberField(MoodText(w, tail), "mood") == Some((w.moodDigits, EnergyText(w, tail)))
  {
    SeparatorTextStart(w.energyBar, w.energyGap + (w.energyDigits + NotesText(w, tail)));
    NumberFieldOf(w.moodBar, "mood", w.moodGap, w.moodDigits, EnergyText(w, tail));
  }

  lemma EnergyTextOf(w: Written, tail: string)
    requires WellFormed(w)
    ensures NumberField(EnergyText(w, tail), "energy") == Some((w.energyDigits, NotesText(w, tail)))
  {
    SeparatorTextStart(w.notesBar, w.notesGap + (w.capture + tail));
    NumberFieldOf(w.energyBar, "energy", w.energyGap, w.energyDigits, NotesText(w, tail));
  }

  /**
   * A written-out template matches where it starts, whatever whitespace runs
   * it has and whatever line follows it.
   */
  lemma MatchHereRender(w: Written, tail: string)
    requires WellFormed(w) && CaptureEnds(w.capture, tail)
    ensures MatchHere(Render(w, tail)) == Some(MorningCheckin(
      DecimalValue(w.intDigits, w.fracDigits), DigitsValue(w.moodDigits),
      DigitsValue(w.energyDigits), Trim(w.capture)))
  {
    assert StartsWithIgnoreCase(w.sleepKw + HoursText(w, tail), "sleep");
    assert (w.sleepKw + HoursText(w, tail))[5..] == HoursText(w, tail);
    HoursTextOf(w, tail);
    MoodTextOf(w, tail);
    EnergyTextOf(w, tail);
    NotesFieldOf(w.notesBar, w.notesGap, w.capture, tail);
    MatchHereOf(w.sleepKw, HoursText(w, tail), DecimalValue(w.intDigits, w.fracDigits), MoodText(w, tail),
                w.moodDigits, EnergyText(w, tail), w.energyDigits, NotesText(w, tail), Trim(w.capture));
  }

  /**
   * Round trip: the strict parser reads back exactly what was written, the
   * keywords in any letter case, any whitespace runs the pattern allows, the
   * sleep hours as their exact decimal value, mood and energy as the plain
   * values of their digit runs, and the notes trimmed.
   */
  lemma ParseStrictRender(w: Written, tail: string)
    requires WellFormed(w) && CaptureEnds(w.capture, tail)
    ensures ParseStrict(Render(w, tail)) == Some(MorningCheckin(
      DecimalValue(w.intDigits, w.fracDigits), DigitsValue(w.moodDigits),
      DigitsValue(w.energyDigits), Trim(w.capture)))
  {
    MatchHereRender(w, tail);
    assert Render(w, tail)[0..] == Render(w, tail);
  }

  // The converse: every match is a written-out template.

  /** What a matched separator consists of, stretch by stretch. */
  lemma SeparatorAt(t: string, kw: string)
    requires Separator(t, kw).Some?
    ensures var a := t[Span(t, IsSpace)..];
      && a != [] && a[0] == '|'
      && var b := a[1..];
      && var c := b[Span(b, IsSpace)..];
      && StartsWithIgnoreCase(c, kw) && Separator(t, kw).value == c[|kw|..]
  {
  }

  /** The whitespace run Span measures. */
  lemma SpaceRunIs(t: string)
    ensures AllSpaces(t[..Span(t, IsSpace)])
  {
  }

  lemma SeparatorParts(t: string, kw: string) returns (b: Bar)
    requires Separator(t, kw).Some?
    ensures BarOk(b, kw) && t == SeparatorText(b, Separator(t, kw).value)
  {
    SeparatorAt(t, kw);
    var i := Span(t, IsSpace);
    var a := t[i..];
    var bb := a[1..];
    var j := Span(bb, IsSpace);
    var c := bb[j..];
    SpaceRunIs(t);
    SpaceRunIs(bb);
    KeywordSpelled(c, kw);
    BarPieces(t, i, a, bb, j, c, |kw|);
    b := Bar(t[..i], bb[..j], c[..|kw|]);
  }

  /** A text cut before a bar, after the whitespace behind it, and after the keyword. */
  lemma BarPieces(t: string, i: nat, a: string, bb: string, j: nat, c: string, n: nat)
    requires i <= |t| && a == t[i..] && a != [] && a[0] == '|'
    requires bb == a[1..] && j <= |bb| && c == bb[j..] && n <= |c|
    ensures t == t[..i] + ("|" + (bb[..j] + (c[..n] + c[n..])))
  {
    assert c == c[..n] + c[n..];
    assert bb == bb[..j] + c;
    assert a == "|" + bb;
    assert t == t[..i] + a;
  }

  /** A match of `\s+(\d+)` cuts the text after the whitespace run and after the digits. */
  lemma SpacedNumberSplit(t: string, ds: string, rest: string)
    requires SpacedNumber(t) == Some((ds, rest))
    ensures 0 < Span(t, IsSpace) && t == t[..Span(t, IsSpace)] + (ds + rest)
  {
    var w, d := SpacedNumberIs(t);
    ThreeWay(t, w, d);
  }

  /** `SpacedNumber` unfolded once: the lengths of the whitespace run and of the digit run. */
  lemma SpacedNumberIs(t: string) returns (w: nat, d: nat)
    ensures w == Span(t, IsSpace) && d == Span(t[w..], IsDigit) && w + d <= |t|
    ensures SpacedNumber(t) == if w == 0 || d == 0 then None else Some((t[w..w + d], t[w + d..]))
  {
    w := Span(t, IsSpace);
    d := Span(t[w..], IsDigit);
  }

  /** A text cut in three at `w` and `w + d`. */
  lemma ThreeWay(t: string, w: nat, d: nat)
    ensures w + d <= |t| ==> t == t[..w] + (t[w..w + d] + t[w + d..])
  {
    if w + d <= |t| {
      assert t[w..] == t[w..w + d] + t[w + d..];
      assert t == t[..w] + t[w..];
    }
  }

  /** The digit run of `\s+(\d+)` is as long as it can be. */
  lemma SpacedNumberEnds(t: string)
    requires SpacedNumber(t).Some?
    ensures var rest := SpacedNumber(t).value.1; rest == [] || !IsDigit(rest[0])
  {
    var w, d := SpacedNumberIs(t);
    assert t[w + d..] == t[w..][d..];
  }

  lemma SpacedNumberParts(t: string) returns (gap: string)
    requires SpacedNumber(t).Some?
    ensures var (ds, rest) := SpacedNumber(t).value;
      Gap(gap) && (rest == [] || !IsDigit(rest[0])) && t == gap + (ds + rest)
  {
    gap := t[..Span(t, IsSpace)];
    SpaceRunIs(t);
    SpacedNumberSplit(t, SpacedNumber(t).value.0, SpacedNumber(t).value.1);
    SpacedNumberEnds(t);
  }

  lemma FractionAndUnitParts(ds: string, rest: string) returns (frac: string, unit: string)
    requires AllDigits(ds)
    ensures var (hours, after) := FractionAndUnit(ds, rest);
      && AllDigits(frac) && UnitOk(unit)
      && hours == DecimalValue(ds, frac) && rest == FracText(frac) + (unit + after)
  {
    var after: string;
    frac, after := Fraction(rest).0, Fraction(rest).1;
    unit := if after != [] && Lower(after[0]) == 'h' then after[..1] else "";
    assert after == unit + AfterUnit(after);
  }

  /** Every character after the first one ends a line. */
  predicate TerminatorsAfterFirst(x: string) {
    forall j :: 0 < j < |x| ==> IsLineTerminator(x[j])
  }

  /**
   * When the greedy `\s*` gives back a whitespace character, the run it had
   * taken reached the end of the text and only line terminators follow the
   * character given back.
   */
  lemma GivenBack(r: string, k: nat)
    requires k < |r| && IsSpace(r[k]) && BackOff(r, Span(r, IsSpace)) == Some(k)
    ensures TerminatorsAfterFirst(r[k..])
  {
    var s := Span(r, IsSpace);
    if s < |r| {
      assert IsLineChar(r[s]);
    }
    assert s == |r|;
  }

  /** The character given back is the whole capture, and the rest is line terminators. */
  lemma GivenBackCapture(x: string)
    requires x != [] && IsLineChar(x[0])
    requires TerminatorsAfterFirst(x)
    ensures Span(x, IsLineChar) == 1
    ensures forall j :: 0 <= j < |x[1..]| ==> IsLineTerminator(x[1..][j])
  {
    if 1 < |x| {
      assert !IsLineChar(x[1]);
    }
  }

  /** A text split after its leading run of characters `.` matches. */
  lemma LineRun(x: string) returns (tail: string)
    ensures var n := Span(x, IsLineChar);
      && NoLineTerminators(x[..n]) && x == x[..n] + tail
      && (tail == [] || IsLineTerminator(tail[0]))
  {
    tail := x[Span(x, IsLineChar)..];
  }

  /** The capture `.+` reads from where the whitespace run ended or gave back. */
  lemma CaptureParts(x: string) returns (capture: string, tail: string)
    requires x != [] && IsLineChar(x[0])
    requires IsSpace(x[0]) ==> TerminatorsAfterFirst(x)
    ensures capture == x[..Span(x, IsLineChar)] && CaptureEnds(capture, tail) && x == capture + tail
  {
    capture := x[..Span(x, IsLineChar)];
    tail := LineRun(x);
    if IsSpace(x[0]) {
      GivenBackCapture(x);
    }
  }

  /** Where the capture of `\s*(.+)` starts, and what the whitespace before it is. */
  lemma CaptureStart(r: string) returns (k: nat)
    requires RestOfLine(r).Some?
    ensures k < |r| && AllSpaces(r[..k]) && r == r[..k] + r[k..] && IsLineChar(r[k..][0])
    ensures IsSpace(r[k..][0]) ==> TerminatorsAfterFirst(r[k..])
    ensures RestOfLine(r).value == r[k..][..Span(r[k..], IsLineChar)]
  {
    k := RestOfLineIs(r);
    SplitAt(r, k);
    SpacesBefore(r, k);
    SuffixPrefix(r, k, Span(r[k..], IsLineChar));
    if IsSpace(r[k]) {
      GivenBack(r, k);
    }
  }

  /** `RestOfLine` unfolded once: where the capture starts. */
  lemma RestOfLineIs(r: string) returns (k: nat)
    requires RestOfLine(r).Some?
    ensures BackOff(r, Span(r, IsSpace)) == Some(k) && k < |r|
    ensures RestOfLine(r) == Some(r[k..k + Span(r[k..], IsLineChar)])
  {
    k := BackOff(r, Span(r, IsSpace)).value;
  }

  lemma SpacesBefore(r: string, k: nat)
    requires k <= Span(r, IsSpace)
    ensures AllSpaces(r[..k])
  {
  }

  lemma SuffixPrefix(r: string, k: nat, n: nat)
    ensures k + n <= |r| ==> r[k..][..n] == r[k..k + n]
  {
  }

  lemma RestOfLineParts(r: string) returns (gap: string, capture: string, tail: string)
    requires RestOfLine(r).Some?
    ensures capture == RestOfLine(r).value
    ensures AllSpaces(gap) && CaptureEnds(capture, tail) && r == gap + (capture + tail)
  {
    var k := CaptureStart(r);
    gap := r[..k];
    capture, tail := CaptureParts(r[k..]);
  }

  lemma SleepHoursParts(r0: string) returns (gap: string, ds: string, frac: string, unit: string)
    requires SleepHours(r0).Some?
    ensures var (sleep, r1) := SleepHours(r0).value;
      && Gap(gap) && |ds| > 0 && AllDigits(ds) && AllDigits(frac) && UnitOk(unit)
      && sleep == DecimalValue(ds, frac) && r0 == gap + (ds + (FracText(frac) + (unit + r1)))
  {
    var rest: string;
    ds, rest := SpacedNumber(r0).value.0, SpacedNumber(r0).value.1;
    gap := SpacedNumberParts(r0);
    frac, unit := FractionAndUnitParts(ds, rest);
  }

  lemma NumberFieldParts(t: string, kw: string) returns (b: Bar, gap: string)
    requires NumberField(t, kw).Some?
    ensures var (ds, rest) := NumberField(t, kw).value;
      && BarOk(b, kw) && Gap(gap) && t == SeparatorText(b, gap + (ds + rest))
  {
    b := SeparatorParts(t, kw);
    gap := SpacedNumberParts(Separator(t, kw).value);
  }

  lemma NotesFieldParts(t: string) returns (b: Bar, gap: string, capture: string, tail: string)
    requires NotesField(t).Some?
    ensures && BarOk(b, "notes:") && AllSpaces(gap) && CaptureEnds(capture, tail)
            && t == SeparatorText(b, gap + (capture + tail)) && NotesField(t) == Some(Trim(capture))
  {
    b := SeparatorParts(t, "notes:");
    gap, capture, tail := RestOfLineParts(Separator(t, "notes:").value);
  }

  lemma SplitAt(x: string, i: nat)
    requires i <= |x|
    ensures x == x[..i] + x[i..]
  {
  }

  lemma KeywordSpelled(t: string, kw: string)
    requires StartsWithIgnoreCase(t, kw)
    ensures SpelledAs(t[..|kw|], kw)
  {
  }

  /** The template and the rest of the text that a match at the start of `t` reads. */
  lemma WrittenFrom(t: string, r1: string, r2: string, r3: string) returns (w: Written, tail: string)
    requires StartsWithIgnoreCase(t, "sleep")
    requires SleepHours(t[5..]).Some? && r1 == SleepHours(t[5..]).value.1
    requires NumberField(r1, "mood").Some? && r2 == NumberField(r1, "mood").value.1
    requires NumberField(r2, "energy").Some? && r3 == NumberField(r2, "energy").value.1
    requires NotesField(r3).Some?
    ensures WellFormed(w) && CaptureEnds(w.capture, tail) && t == Render(w, tail)
  {
    var r0 := t[5..];
    SplitAt(t, 5);
    KeywordSpelled(t, "sleep");
    var sleepGap, ds, frac, unit := SleepHoursParts(r0);
    var moodBar, moodGap := NumberFieldParts(r1, "mood");
    var energyBar, energyGap := NumberFieldParts(r2, "energy");
    var notesBar, notesGap, capture, tail' := NotesFieldParts(r3);
    tail := tail';
    w := Written(t[..5], sleepGap, ds, frac, unit, moodBar, moodGap, NumberField(r1, "mood").value.0,
                 energyBar, energyGap, NumberField(r2, "energy").value.0, notesBar, notesGap, capture);
    assert MoodText(w, tail) == r1;
    assert HoursText(w, tail) == r0;
  }

  /**
   * The converse of MatchHereRender: whatever the pattern matches at the start
   * of `t` is a written-out template followed by the rest of the text, and the
   * reading is that template's values.
   */
  lemma MatchHereWritten(t: string)
    requires MatchHere(t).Some?
    ensures exists w: Written, tail: string ::
      && WellFormed(w) && CaptureEnds(w.capture, tail) && t == Render(w, tail)
      && MatchHere(t) == Some(MorningCheckin(
           DecimalValue(w.intDigits, w.fracDigits), DigitsValue(w.moodDigits),
           DigitsValue(w.energyDigits), Trim(w.capture)))
  {
    var r1 := SleepHours(t[5..]).value.1;
    var r2 := NumberField(r1, "mood").value.1;
    var w, tail := WrittenFrom(t, r1, r2, NumberField(r2, "energy").value.1);
    MatchHereRender(w, tail);
  }

  /** Dropping a prefix from the searched text shifts the search by the prefix's length. */
  lemma {:induction false} FirstMatchShift<R>(p: string, s: string, i: nat, m: string -> Option<R>)
    requires |p| <= i
    decreases |p + s| + 1 - i
    ensures FirstMatch(p + s, i, m) == FirstMatch(s, i - |p|, m)
  {
    if i <= |p + s| {
      assert (p + s)[i..] == s[i - |p|..];
      FirstMatchShift(p, s, i + 1, m);
    }
  }

  /** Start positions without a match are skipped by the search. */
  lemma {:induction false} FirstMatchSkip<R>(s: string, i: nat, j: nat, m: string -> Option<R>)
    requires i <= j <= |s|
    requires forall k :: i <= k < j ==> m(s[k..]).None?
    decreases j - i
    ensures FirstMatch(s, i, m) == FirstMatch(s, j, m)
  {
    if i < j {
      FirstMatchSkip(s, i + 1, j, m);
    }
  }

  /**
   * The search is unanchored: any text put in front of a message leaves the
   * result unchanged, provided no match starts inside that text.
   */
  lemma UnanchoredPrefix(p: string, s: string)
    requires forall k :: 0 <= k < |p| ==> MatchHere((p + s)[k..]).None?
    ensures ParseStrict(p + s) == ParseStrict(s)
  {
    FirstMatchSkip(p + s, 0, |p|, MatchHere);
    FirstMatchShift(p, s, |p|, MatchHere);
  }

  /** `Sleep` must be followed by at least one whitespace character before the hours. */
  lemma SleepNeedsSpace(t: string)
    requires MatchHere(t).Some?
    ensures |t| > 5 && StartsWithIgnoreCase(t, "sleep") && IsSpace(t[5])
  {
  }

  /** The pattern needs `sleep`, in any letter case, where it starts. */
  lemma NoKeywordNoMatch(t: string)
    requires !StartsWithIgnoreCase(t, "sleep")
    ensures MatchHere(t).None?
  {
  }

  /** No check-in can be read from a message in which the letter `l` never occurs in either case. */
  lemma NoLetterLNoMatch(s: string)
    requires forall k :: 0 <= k < |s| ==> Lower(s[k]) != 'l'
    ensures ParseStrict(s) == None
  {
    forall k | 0 <= k <= |s| ensures !StartsWithIgnoreCase(s[k..], "sleep") {
      if 2 <= |s[k..]| {
        assert s[k..][1] == s[k + 1];
      }
    }
    forall k | 0 <= k <= |s| ensures MatchHere(s[k..]).None? {
      NoKeywordNoMatch(s[k..]);
    }
  }

  /** The shortest decimal digit run for `n`. */
  function DecimalDigits(n: nat): (ds: string)
    ensures |ds| > 0 && AllDigits(ds)
  {
    (if n < 10 then "" else DecimalDigits(n / 10)) + [('0' as int + n % 10) as char]
  }

  lemma {:induction false} DecimalDigitsValue(n: nat)
    ensures DigitsValue(DecimalDigits(n)) == n
  {
    var ds := DecimalDigits(n);
    var front := if n < 10 then "" else DecimalDigits(n / 10);
    LastDigit(front, n % 10);
    if n >= 10 {
      DecimalDigitsValue(n / 10);
    }
    assert n == 10 * (n / 10) + n % 10;
  }

  /** A digit written after a digit run shifts the run's value one place left. */
  lemma LastDigit(front: string, d: nat)
    requires AllDigits(front) && d < 10
    ensures var ds := front + [('0' as int + d) as char];
      AllDigits(ds) && DigitsValue(ds) == 10 * DigitsValue(front) + d
  {
    var ds := front + [('0' as int + d) as char];
    assert ds[..|ds| - 1] == front;
  }

  /**
   * Mood and energy are not range-checked: every natural number, 0 and
   * anything above 10 included, can be reported and is read back as it is.
   */
  lemma AnyMoodAndEnergy(w: Written, tail: string, mood: nat, energy: nat)
    requires WellFormed(w) && CaptureEnds(w.capture, tail)
    ensures var m := Render(w.(moodDigits := DecimalDigits(mood), energyDigits := DecimalDigits(energy)), tail);
      && ParseStrict(m).Some?
      && ParseStrict(m).value.mood == mood
      && ParseStrict(m).value.energy == energy
  {
    var w' := w.(moodDigits := DecimalDigits(mood), energyDigits := DecimalDigits(energy));
    ParseStrictRender(w', tail);
    DecimalDigitsValue(mood);
    DecimalDigitsValue(energy);
  }

  /** A message without the template reads as no check-in. */
  lemma StrictMiss()
    ensures ParseStrict("just tired today") == None
  {
    NoLetterLNoMatch("just tired today");
  }

  /** `Sleep 7h|Mood 8|Energy 6|Notes:ok` as a written template. */
  const Compact := Written("Sleep", " ", "7", "", "h", Bar("", "", "Mood"), " ", "8",
                           Bar("", "", "Energy"), " ", "6", Bar("", "", "Notes:"), "", "ok")

  /** Whitespace around the bars and after `Notes:` is optional. */
  lemma CompactExample()
    ensures ParseStrict("Sleep 7h|Mood 8|Energy 6|Notes:ok") == Some(MorningCheckin(7.0, 8, 6, "ok"))
  {
    CompactWellFormed();
    CompactRender();
    ParseStrictRender(Compact, "");
    CompactReading();
  }

  lemma CompactReading()
    ensures DecimalValue("7", "") == 7.0 && DigitsValue("8") == 8 && DigitsValue("6") == 6
    ensures Trim("ok") == "ok"
  {
    assert DigitsValue("7") == 7 by { assert "7"[..0] == ""; }
    assert DigitsValue("8") == 8 by { assert "8"[..0] == ""; }
    assert DigitsValue("6") == 6 by { assert "6"[..0] == ""; }
    WholeHours("7");
    TrimmedUnchanged("ok");
  }

  lemma CompactWellFormed()
    ensures WellFormed(Compact) && CaptureEnds(Compact.capture, "")
  {
    CompactKeywords();
  }

  lemma CompactKeywords()
    ensures SpelledAs("Sleep", "sleep") && SpelledAs("Mood", "mood")
    ensures SpelledAs("Energy", "energy") && SpelledAs("Notes:", "notes:")
  {
    assert SpelledAs("Sleep", "sleep");
    assert SpelledAs("Mood", "mood");
    assert SpelledAs("Energy", "energy");
  }

  lemma CompactRender()
    ensures Render(Compact, "") == "Sleep 7h|Mood 8|Energy 6|Notes:ok"
  {
    CompactSplit();
  }

  lemma CompactSplit()
    ensures "Sleep 7h|Mood 8|Energy 6|Notes:ok"
      == "Sleep" + (" " + ("7" + ("" + ("h" + ("" + ("|" + ("" + ("Mood" + (" " + ("8" + ("" + ("|" + ("" + ("Energy" + (" " + ("6" + ("" + ("|" + ("" + ("Notes:" + ("" + ("ok" + ("")))))))))))))))))))))))
  {
  }

  /**
   * The fields must come in the template's order: after the sleep hours the
   * next separator has to introduce the mood.
   */
  lemma SleepThenOther(kw: string, gap: string, ds: string, frac: string, unit: string,
                       b: Bar, other: string, rest: string)
    requires SpelledAs(kw, "sleep") && Gap(gap) && |ds| > 0 && AllDigits(ds) && AllDigits(frac) && UnitOk(unit)
    requires BarOk(b, other) && |other| > 0 && !IsSpace(other[0]) && other[0] != 'm'
    ensures MatchHere(kw + (gap + (ds + (FracText(frac) + (unit + SeparatorText(b, rest)))))) == None
  {
    var r0 := gap + (ds + (FracText(frac) + (unit + SeparatorText(b, rest))));
    assert (kw + r0)[5..] == r0;
    SeparatorTextStart(b, rest);
    SleepHoursOf(gap, ds, frac, unit, SeparatorText(b, rest));
    SeparatorOther(b, other, "mood", rest);
  }

  /**
   * A message that does not match at its start and has no `l` after its
   * second character reads as no check-in.
   */
  lemma OnlyStartCanMatch(s: string)
    requires MatchHere(s).None?
    requires forall j :: 2 <= j < |s| ==> Lower(s[j]) != 'l'
    ensures ParseStrict(s) == None
  {
    forall k | 1 <= k <= |s| ensures MatchHere(s[k..]).None? {
      if 2 <= |s[k..]| {
        assert s[k..][1] == s[k + 1];
      }
      NoKeywordNoMatch(s[k..]);
    }
    assert s[0..] == s;
  }

  /** Mood and energy swapped: no check-in. */
  lemma OutOfOrderMiss()
    ensures ParseStrict("Sleep 7 | Energy 6 | Mood 8 | Notes: x") == None
  {
    OutOfOrderAtStart();
    OutOfOrderLetters();
    OnlyStartCanMatch("Sleep 7 | Energy 6 | Mood 8 | Notes: x");
  }

  lemma OutOfOrderAtStart()
    ensures MatchHere("Sleep 7 | Energy 6 | Mood 8 | Notes: x") == None
  {
    var b := Bar(" ", " ", "Energy");
    var rest := " 6 | Mood 8 | Notes: x";
    OutOfOrderSplit();
    assert SeparatorText(b, rest) == " " + ("|" + (" " + ("Energy" + rest)));
    assert SpelledAs("Sleep", "sleep");
    assert SpelledAs("Energy", "energy");
    SleepThenOther("Sleep", " ", "7", "", "", b, "energy", rest);
  }

  lemma OutOfOrderSplit()
    ensures "Sleep 7 | Energy 6 | Mood 8 | Notes: x"
      == "Sleep" + (" " + ("7" + ("" + ("" + (" " + ("|" + (" " + ("Energy" + " 6 | Mood 8 | Notes: x"))))))))
  {
  }

  /** The only `l` of the message, in either case, is the one in `Sleep`. */
  lemma OutOfOrderLetters()
    ensures forall j :: 2 <= j < |"Sleep 7 | Energy 6 | Mood 8 | Notes: x"| ==>
      Lower("Sleep 7 | Energy 6 | Mood 8 | Notes: x"[j]) != 'l'
  {
  }

  // ---------------------------------------------------------------------------
  // The AI-assisted fallback (`parseMorningCheckinFlexible`)
  // ---------------------------------------------------------------------------

  /**
   * What a call to the text-generation provider gave back: the call failed
   * (threw), or it returned, with or without message content.
   */
  datatype LlmOutcome = ProviderError | Completion(content: Option<string>)

  /**
   * What `JSON.parse` made of the isolated text, seen through the fields the
   * extractor reads: the text was not JSON, it was `null`, or it was some other
   * value. For the last, each of `sleep`, `mood`, `energy` is its number when
   * it holds a number and absent otherwise, and `notes` is the string form of
   * the field when it is neither null nor undefined.
   */
  datatype Decoded =
    | Malformed
    | JsonNull
    | Fields(sleep: Option<real>, mood: Option<real>, energy: Option<real>, notes: Option<string>)

  /** `Math.round`: to the nearest integer, halves upward. */
  function RoundHalfUp(x: real): (r: int)
    ensures r as real - 0.5 <= x < r as real + 0.5
  {
    (x + 0.5).Floor
  }

  /** The provider's message content trimmed, or empty when there is none. */
  function CompletionText(content: Option<string>): (r: string)
    ensures IsTrimmed(r)
    ensures content.Some? ==> r == Trim(content.value)
    ensures content.None? ==> r == ""
  {
    Trim(content.GetOr(""))
  }

  /** Index of the first `c` in `t`. */
  function FirstIndexOf(t: string, c: char): (r: Option<nat>)
    ensures r.Some? ==> r.value < |t| && t[r.value] == c && c !in t[..r.value]
    ensures r.None? ==> c !in t
  {
    if t == [] then None
    else if t[0] == c then Some(0)
    else match FirstIndexOf(t[1..], c)
      case None => None
      case Some(k) => assert t[..k + 1] == [t[0]] + t[1..][..k]; Some(k + 1)
  }

  /** Index of the last `c` in `t`. */
  function LastIndexOf(t: string, c: char): (r: Option<nat>)
    ensures r.Some? ==> r.value < |t| && t[r.value] == c && c !in t[r.value + 1..]
    ensures r.None? ==> c !in t
  {
    if t == [] then None
    else if t[|t| - 1] == c then Some(|t| - 1)
    else match LastIndexOf(t[..|t| - 1], c)
      case None => None
      case Some(k) => assert t[k + 1..] == t[..|t| - 1][k + 1..] + [t[|t| - 1]]; Some(k)
  }

  /** `{` at `i` is the first `{` of `raw`, `}` at `j` the last `}`, and `i < j`. */
  predicate BraceSpan(raw: string, i: nat, j: nat) {
    i < j < |raw| && raw[i] == '{' && raw[j] == '}' && '{' !in raw[..i] && '}' !in raw[j + 1..]
  }

  /**
   * `raw.match(/\{[\s\S]*\}/)`, or `raw` itself when that fails: the greedy
   * match runs from the first `{` to the last `}` after it.
   */
  function IsolateJson(raw: string): (r: string)
    ensures forall i: nat, j: nat :: BraceSpan(raw, i, j) ==> r == raw[i..j + 1]
    ensures (forall i, j :: 0 <= i < j < |raw| ==> !(raw[i] == '{' && raw[j] == '}')) ==> r == raw
  {
    match (FirstIndexOf(raw, '{'), LastIndexOf(raw, '}'))
    case (Some(i), Some(j)) =>
      if i < j then
        assert forall i': nat, j': nat :: BraceSpan(raw, i', j') ==> i' == i && j' == j;
        raw[i..j + 1]
      else raw
    case _ => raw
  }

  /**
   * Lines 69-85 of the extractor: coerce the decoded fields and apply the
   * acceptance rule. The result is null exactly when nothing was decoded or
   * none of the three numbers is present and the trimmed notes are empty;
   * a missing number becomes 0 and mood and energy are rounded.
   */
  function Coerce(d: Decoded): (r: Option<MorningCheckin>)
    ensures r.None? <==> (|| d.Malformed? || d.JsonNull?
                          || (&& d.sleep.None? && d.mood.None? && d.energy.None?
                              && Trim(d.notes.GetOr("")) == ""))
    ensures r.Some? ==> && d.Fields?
                        && r.value.sleep == d.sleep.GetOr(0.0)
                        && r.value.mood == (if d.mood.Some? then RoundHalfUp(d.mood.value) else 0)
                        && r.value.energy == (if d.energy.Some? then RoundHalfUp(d.energy.value) else 0)
                        && r.value.notes == Trim(d.notes.GetOr(""))
  {
    match d
    case Malformed => None
    case JsonNull => None
    case Fields(sleep, mood, energy, notesField) =>
      var notes := Trim(notesField.GetOr(""));
      var hasAnyNumeric := sleep.Some? || mood.Some? || energy.Some?;
      if !hasAnyNumeric && notes == "" then None
      else Some(MorningCheckin(
        sleep.GetOr(0.0),
        if mood.Some? then RoundHalfUp(mood.value) else 0,
        if energy.Some? then RoundHalfUp(energy.value) else 0,
        notes))
  }

  /**
   * What the extractor makes of the provider's answer, `jsonParse` standing
   * for `JSON.parse`: nothing when the call failed or its trimmed content is
   * empty, otherwise the coerced decoding of the isolated JSON text.
   */
  function FromCompletion(llm: LlmOutcome, jsonParse: string -> Decoded): (r: Option<MorningCheckin>)
    ensures llm.ProviderError? ==> r.None?
    ensures llm.Completion? && CompletionText(llm.content) == "" ==> r.None?
    ensures llm.Completion? && CompletionText(llm.content) != "" ==>
      r == Coerce(jsonParse(IsolateJson(CompletionText(llm.content))))
  {
    match llm
    case ProviderError => None
    case Completion(content) =>
      var raw := CompletionText(content);
      if raw == "" then None
      else Coerce(jsonParse(IsolateJson(raw)))
  }

  /**
   * `parseMorningCheckinFlexible`: the strict parse when it succeeds (the
   * provider is then never consulted), the extraction from the provider's
   * answer otherwise.
   */
  function ParseFlexible(message: string, llm: LlmOutcome, jsonParse: string -> Decoded): (r: Option<MorningCheckin>)
    ensures ParseStrict(message).Some? ==> r == ParseStrict(message)
    ensures ParseStrict(message).None? ==> r == FromCompletion(llm, jsonParse)
  {
    match ParseStrict(message)
    case Some(c) => Some(c)
    case None => FromCompletion(llm, jsonParse)
  }

  /** Notes alone are enough: the rule is "a number or notes", not "a number and notes". */
  lemma NotesAloneAccepted(notes: string)
    requires Trim(notes) != ""
    ensures Coerce(Fields(None, None, None, Some(notes))) == Some(MorningCheckin(0.0, 0, 0, Trim(notes)))
  {
  }

  /** A single number is enough, with no notes at all. */
  lemma NumberAloneAccepted(sleep: real)
    ensures Coerce(Fields(Some(sleep), None, None, None)) == Some(MorningCheckin(sleep, 0, 0, ""))
  {
    assert Trim("") == "";
  }

  /**
   * Once a record is accepted, a missing mood and a reported mood of 0 give
   * the same record: absence cannot be told apart from zero.
   */
  lemma AbsentMoodLikeZero(d: Decoded)
    requires d.Fields? && Coerce(d.(mood := None)).Some?
    ensures Coerce(d.(mood := None)) == Coerce(d.(mood := Some(0.0)))
  {
    assert RoundHalfUp(0.0) == 0;
  }

  /** A mood of 0 on its own is a check-in, while a missing mood on its own is none. */
  lemma ZeroMoodAloneAccepted()
    ensures Coerce(Fields(None, Some(0.0), None, None)) == Some(MorningCheckin(0.0, 0, 0, ""))
    ensures Coerce(Fields(None, None, None, None)) == None
  {
    assert Trim("") == "";
    assert RoundHalfUp(0.0) == 0;
  }

  // ---------------------------------------------------------------------------
  // Replies: generated text or a fixed fallback
  // ---------------------------------------------------------------------------

  const PlanUnavailable := "Unable to generate a plan right now."
  const PlanFailed := "I'm having trouble generating your daily plan right now. Please try again later."
  const FormatReminder := "I'm here to help! Please send me your morning check-in in this format: Sleep __h | Mood __ | Energy __ | Notes: __"

  /**
   * The provider's trimmed text when there is some; `onEmpty` when the call
   * returned nothing usable and `onError` when it failed.
   */
  function ReplyOrFallback(llm: LlmOutcome, onEmpty: string, onError: string): (r: string)
    requires onEmpty != "" && onError != ""
    ensures r != ""
    ensures llm.Completion? && CompletionText(llm.content) != "" ==> r == CompletionText(llm.content)
    ensures llm.Completion? && CompletionText(llm.content) == "" ==> r == onEmpty
    ensures llm.ProviderError? ==> r == onError
  {
    match llm
    case ProviderError => onError
    case Completion(content) =>
      var text := CompletionText(content);
      if text != "" then text else onEmpty
  }

  /** `generateDailyPlan`: never empty. */
  function GenerateDailyPlan(llm: LlmOutcome): (r: string)
    ensures r != ""
    ensures llm.Completion? && CompletionText(llm.content) != "" ==> r == CompletionText(llm.content)
    ensures llm.Completion? && CompletionText(llm.content) == "" ==> r == PlanUnavailable
    ensures llm.ProviderError? ==> r == PlanFailed
  {
    ReplyOrFallback(llm, PlanUnavailable, PlanFailed)
  }

  /** `generateGeneralResponse`: never empty; its fallback reminds the user of the template. */
  function GenerateGeneralResponse(llm: LlmOutcome): (r: string)
    ensures r != ""
    ensures llm.Completion? && CompletionText(llm.content) != "" ==> r == CompletionText(llm.content)
    ensures !(llm.Completion? && CompletionText(llm.content) != "") ==> r == FormatReminder
  {
    ReplyOrFallback(llm, FormatReminder, FormatReminder)
  }
}
