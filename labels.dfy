/**
 * The CPU and memory labels under the charts, and how the legend toggle
 * reads the current value back out of a label's text.
 */
module Labels {
  import opened Wrappers
  import Text
  import Decimal
  import Settings
  import Strings

  /** The memory label in full view: the template plus the limit in GB. */
  function MemLabelFullWithLimit(value: string, limitPercent: string): string {
    Strings.MemLabelFull(value, limitPercent) + " (" + Decimal.IntText(Settings.MemoryLimitGb) + "GB)"
  }

  /** The label text that was first shown for CPU, before any sample. */
  const InitialCpuLabel := Strings.CpuLabelName + ": " + "0" + "%" + " (Should not exceed 20%)"

  /**
   * `text.split('%')[0].split(': ')[1]`; None where Python raises
   * IndexError because the text before the first `%` has no `: `.
   */
  function LabelValueText(text: string): Option<string> {
    var parts := Text.Split(Text.Split(text, "%")[0], ": ");
    if |parts| > 1 then Some(parts[1]) else None
  }

  /** `float(...)` of the extracted text: None where Python raises. */
  function LabelNumber(text: string): Option<real> {
    match LabelValueText(text)
    case None => None
    case Some(v) => Decimal.ParseDecimal(v)
  }

  /**
   * A value is extracted exactly when `: ` occurs before the first `%`,
   * and the value extracted holds no further `: `.
   */
  lemma LabelValueTextCases(text: string)
    ensures LabelValueText(text).None? <==> !Text.Contains(Text.Split(text, "%")[0], ": ")
    ensures LabelValueText(text).Some? ==> !Text.Contains(LabelValueText(text).value, ": ")
  {
    var head := Text.Split(text, "%")[0];
    Text.SplitMore(head, ": ");
    Text.SplitPiecesFree(head, ": ");
  }

  /** A label reads as a number only when its value text is written with numeral characters alone. */
  lemma LabelNumberNumeral(text: string)
    requires LabelNumber(text).Some?
    ensures LabelValueText(text).Some?
    ensures forall i :: 0 <= i < |LabelValueText(text).value| ==> Decimal.NumeralChar(LabelValueText(text).value[i])
  {
    var v := LabelValueText(text).value;
    assert Decimal.ParseDecimal(v).Some?;
  }

  /** A value text that the extraction can recover: no `%` and no `:`. */
  predicate PlainValue(v: string) {
    '%' !in v && ':' !in v
  }

  /** A label of the form `<name>: <value>%<rest>` gives back `<value>`. */
  lemma ValueOfLabel(name: string, v: string, rest: string)
    requires ':' !in name && '%' !in name && PlainValue(v)
    ensures LabelValueText(name + ": " + v + "%" + rest) == Some(v)
  {
    var head := name + ": " + v;
    assert '%' !in head;
    Text.FirstAfter(head, "%", rest);
    assert Text.Split(name + ": " + v + "%" + rest, "%")[0] == head;
    Text.FirstAfter(name, ": ", v);
    Text.AbsentChar(v, ": ", ':');
  }

  /** Every label template gives back exactly the value text it was filled with. */
  lemma TemplatesGiveBackValue(v: string, limit: string)
    requires PlainValue(v)
    ensures LabelValueText(Strings.CpuLabelFull(v)) == Some(v)
    ensures LabelValueText(Strings.CpuLabelCompact(v)) == Some(v)
    ensures LabelValueText(MemLabelFullWithLimit(v, limit)) == Some(v)
    ensures LabelValueText(Strings.MemLabelCompact(v)) == Some(v)
  {
    CpuTemplates(v);
    MemTemplates(v, limit);
  }

  lemma CpuTemplates(v: string)
    requires PlainValue(v)
    ensures LabelValueText(Strings.CpuLabelFull(v)) == Some(v)
    ensures LabelValueText(Strings.CpuLabelCompact(v)) == Some(v)
  {
    ValueOfLabel(Strings.CpuLabelName, v, " (Should not exceed 20.0%)");
    ValueOfLabel(Strings.CpuLabelName, v, "");
    assert Strings.CpuLabelCompact(v) == Strings.CpuLabelName + ": " + v + "%" + "";
  }

  lemma MemTemplates(v: string, limit: string)
    requires PlainValue(v)
    ensures LabelValueText(MemLabelFullWithLimit(v, limit)) == Some(v)
    ensures LabelValueText(Strings.MemLabelCompact(v)) == Some(v)
  {
    MemFullTemplate(v, limit);
    ValueOfLabel(Strings.MemLabelName, v, "");
    assert Strings.MemLabelCompact(v) == Strings.MemLabelName + ": " + v + "%" + "";
  }

  lemma MemFullTemplate(v: string, limit: string)
    requires PlainValue(v)
    ensures LabelValueText(MemLabelFullWithLimit(v, limit)) == Some(v)
  {
    var tail := " (Cannot exceed " + limit + "%)" + " (" + Decimal.IntText(Settings.MemoryLimitGb) + "GB)";
    ValueOfLabel(Strings.MemLabelName, v, tail);
    assert MemLabelFullWithLimit(v, limit) == Strings.MemLabelName + ": " + v + "%" + tail;
  }

  /** A number rendered with one decimal contains no `%` and no `:`. */
  lemma RenderedIsPlain(x: real)
    ensures PlainValue(Decimal.Fixed1(x))
  {
    var s := Decimal.Fixed1(x);
    assert forall i :: 0 <= i < |s| ==> Decimal.NumeralChar(s[i]);
  }

  /** A label whose value text is a rendered number reads as that number. */
  lemma NumberOfRendered(text: string, x: real)
    requires LabelValueText(text) == Some(Decimal.Fixed1(x))
    ensures LabelNumber(text) == Some(Decimal.RoundTenths(x) as real / 10.0)
  {
    Decimal.FormatTenthsRoundTrip(Decimal.RoundTenths(x));
  }

  /**
   * The number the legend toggle reads from a label that shows `x` is `x`
   * rounded to one decimal, whichever template the label uses.
   */
  lemma LabelNumberOfRendered(x: real, limit: string)
    ensures LabelNumber(Strings.CpuLabelFull(Decimal.Fixed1(x))) == Some(Decimal.RoundTenths(x) as real / 10.0)
    ensures LabelNumber(Strings.CpuLabelCompact(Decimal.Fixed1(x))) == Some(Decimal.RoundTenths(x) as real / 10.0)
    ensures LabelNumber(MemLabelFullWithLimit(Decimal.Fixed1(x), limit)) == Some(Decimal.RoundTenths(x) as real / 10.0)
    ensures LabelNumber(Strings.MemLabelCompact(Decimal.Fixed1(x))) == Some(Decimal.RoundTenths(x) as real / 10.0)
  {
    var v := Decimal.Fixed1(x);
    RenderedIsPlain(x);
    TemplatesGiveBackValue(v, limit);
    NumberOfRendered(Strings.CpuLabelFull(v), x);
    NumberOfRendered(Strings.CpuLabelCompact(v), x);
    NumberOfRendered(MemLabelFullWithLimit(v, limit), x);
    NumberOfRendered(Strings.MemLabelCompact(v), x);
  }

  /** The first CPU label reads as zero. */
  lemma InitialCpuLabelIsZero()
    ensures LabelNumber(InitialCpuLabel) == Some(0.0)
  {
    ValueOfLabel(Strings.CpuLabelName, "0", " (Should not exceed 20%)");
    ZeroParses();
  }

  lemma ZeroParses()
    ensures Decimal.ParseDecimal("0") == Some(0.0)
  {
    assert Decimal.DigitsValue("0") == 0 by {
      assert "0"[..0] == [];
    }
    Text.AbsentChar("0", ".", '.');
  }

  /**
   * Re-rendering the number read from a label that shows a value with one
   * decimal gives a label that reads as the same number, in either template.
   */
  lemma RerenderKeepsNumber(tenths: int, limit: string)
    ensures var x := tenths as real / 10.0;
      && LabelNumber(Strings.CpuLabelFull(Decimal.Fixed1(x))) == Some(x)
      && LabelNumber(Strings.CpuLabelCompact(Decimal.Fixed1(x))) == Some(x)
      && LabelNumber(MemLabelFullWithLimit(Decimal.Fixed1(x), limit)) == Some(x)
      && LabelNumber(Strings.MemLabelCompact(Decimal.Fixed1(x))) == Some(x)
  {
    var x := tenths as real / 10.0;
    assert Decimal.RoundTenths(x) == tenths by {
      assert x * 10.0 == tenths as real;
    }
    LabelNumberOfRendered(x, limit);
  }

  /** The CPU label shows `x`: rendered in either template, or the label shown at start-up. */
  predicate CpuLabelShows(text: string, x: real) {
    || text == Strings.CpuLabelFull(Decimal.Fixed1(x))
    || text == Strings.CpuLabelCompact(Decimal.Fixed1(x))
    || (text == InitialCpuLabel && x == 0.0)
  }

  /** The memory label shows `x`, rendered in either template. */
  predicate MemLabelShows(text: string, x: real, limit: string) {
    || text == MemLabelFullWithLimit(Decimal.Fixed1(x), limit)
    || text == Strings.MemLabelCompact(Decimal.Fixed1(x))
  }

  /** A CPU label that shows `x` reads back as `x` rounded to one decimal. */
  lemma CpuShownNumber(text: string, x: real)
    requires CpuLabelShows(text, x)
    ensures LabelNumber(text) == Some(Decimal.RoundTenths(x) as real / 10.0)
  {
    if text == InitialCpuLabel && x == 0.0 {
      InitialCpuLabelIsZero();
      assert Decimal.RoundTenths(0.0) == 0;
    } else {
      var v := Decimal.Fixed1(x);
      RenderedIsPlain(x);
      CpuTemplates(v);
      NumberOfRendered(text, x);
    }
  }

  /** A memory label that shows `x` reads back as `x` rounded to one decimal. */
  lemma MemShownNumber(text: string, x: real, limit: string)
    requires MemLabelShows(text, x, limit)
    ensures LabelNumber(text) == Some(Decimal.RoundTenths(x) as real / 10.0)
  {
    var v := Decimal.Fixed1(x);
    RenderedIsPlain(x);
    MemTemplates(v, limit);
    NumberOfRendered(text, x);
  }
}
