/**
 * The lines of `shared-build-number-config.xml` as the service writes them by hand: the
 * cached header, the last-update stamp, the settings block and one block per build number.
 */
module ConfigFile {
  import opened JavaString
  import opened Entity

  /** `String.valueOf(boolean)`. */
  function BoolText(b: bool): string
  {
    if b then "true" else "false"
  }

  /** The `<settings>` block and the blank line after it. */
  function SettingsLines(sequence: int): seq<string>
  {
    ["\t<settings>",
     "\t\t<buildNumberIdSequence>" + IntToString(sequence) + "</buildNumberIdSequence>",
     "\t</settings>",
     ""]
  }

  /** The `<dateFormat>` element is written only for a date format that is neither null nor blank. */
  predicate WritesDateFormat(dateFormat: NString)
  {
    dateFormat.Str? && Trim(dateFormat.s) != []
  }

  /** The lines of one `<build-number>` element. */
  function EntryLines(e: SharedBuildNumber): seq<string>
  {
    EntryHead(e) + DateFormatLines(e.dateFormat) + EntryTail(e)
  }

  function EntryHead(e: SharedBuildNumber): seq<string>
  {
    ["\t\t<build-number id=\"" + IntToString(e.id) + "\" incrementOnceForChain=\"" +
       BoolText(e.incrementOnceForChain) + "\">",
     "\t\t\t<name><![CDATA[" + Show(e.name) + "]]></name>",
     "\t\t\t<description><![CDATA[" + Show(e.description) + "]]></description>",
     "\t\t\t<format><![CDATA[" + Show(e.format) + "]]></format>"]
  }

  function DateFormatLines(dateFormat: NString): seq<string>
  {
    if WritesDateFormat(dateFormat) then ["\t\t\t<dateFormat>" + dateFormat.s + "</dateFormat>"] else []
  }

  function EntryTail(e: SharedBuildNumber): seq<string>
  {
    ["\t\t\t<counter>" + IntToString(e.counter) + "</counter>",
     "\t\t</build-number>"]
  }

  /** The elements of `es` in order, a blank line before every element but the first. */
  function EntriesBody(es: seq<SharedBuildNumber>): seq<string>
  {
    if es == [] then []
    else EntriesBody(es[..|es| - 1]) + (if |es| > 1 then [""] else []) + EntryLines(es[|es| - 1])
  }

  /** The body for one more element: a separator unless it is the first, then its lines. */
  lemma EntriesBodyStep(es: seq<SharedBuildNumber>, i: nat)
    requires i < |es|
    ensures EntriesBody(es[..i + 1]) == EntriesBody(es[..i]) + (if i > 0 then [""] else []) + EntryLines(es[i])
  {
    assert es[..i + 1][..i] == es[..i];
  }

  /** Appending a block after a separator extends the body by separator and block. */
  lemma AppendBlock(lines: seq<string>, body: seq<string>, sep: seq<string>, block: seq<string>, separated: seq<string>, out: seq<string>)
    requires separated == lines + (body + sep)
    requires out == separated + block
    ensures out == lines + (body + sep + block)
  {
  }

  /** The steps of writing the `<build-numbers>` block add up to the block. */
  lemma BlockAppended(lines: seq<string>, body: seq<string>, pad: seq<string>, written: seq<string>, out: seq<string>)
    requires written == lines + ["\t<build-numbers>"] + body
    requires out == written + pad + ["\t</build-numbers>", ""]
    ensures out == lines + (["\t<build-numbers>"] + body + pad + ["\t</build-numbers>", ""])
  {
  }

  /** The `<build-numbers>` block: a single blank line stands in for an empty list. */
  function BuildNumbersLines(es: seq<SharedBuildNumber>): seq<string>
  {
    ["\t<build-numbers>"] + EntriesBody(es) + (if es == [] then [""] else []) + ["\t</build-numbers>", ""]
  }

  /** The whole file, given the header, the formatted save time, the id sequence and the entries in file order. */
  function ConfigLines(header: seq<string>, timestamp: string, sequence: int, es: seq<SharedBuildNumber>): seq<string>
  {
    header + ["", "\t<last-update>" + timestamp + "</last-update>", ""]
    + SettingsLines(sequence) + BuildNumbersLines(es)
    + ["</shared-build-number-config>", ""]
  }

  /** How many lines of an element: six, plus one when the date format is written. */
  function EntrySize(e: SharedBuildNumber): nat
  {
    if WritesDateFormat(e.dateFormat) then 7 else 6
  }

  function TotalEntrySize(es: seq<SharedBuildNumber>): nat
  {
    if es == [] then 0 else TotalEntrySize(es[..|es| - 1]) + EntrySize(es[|es| - 1])
  }

  function CountBlank(lines: seq<string>): nat
  {
    if lines == [] then 0 else CountBlank(lines[..|lines| - 1]) + (if lines[|lines| - 1] == "" then 1 else 0)
  }

  lemma {:induction false} CountBlankAppend(a: seq<string>, b: seq<string>)
    ensures CountBlank(a + b) == CountBlank(a) + CountBlank(b)
    decreases |b|
  {
    if b != [] {
      var ab := a + b;
      assert ab[..|ab| - 1] == a + b[..|b| - 1];
      assert ab[|ab| - 1] == b[|b| - 1];
      CountBlankAppend(a, b[..|b| - 1]);
      assert CountBlank(ab) == CountBlank(ab[..|ab| - 1]) + (if ab[|ab| - 1] == "" then 1 else 0);
    } else {
      assert a + b == a;
    }
  }

  /** No line of an element is blank, and the element has `EntrySize` lines. */
  lemma EntryLinesShape(e: SharedBuildNumber)
    ensures |EntryLines(e)| == EntrySize(e)
    ensures CountBlank(EntryLines(e)) == 0
  {
    HeadShape(e);
    DateFormatShape(e.dateFormat);
    TailShape(e);
    CountBlankAppend(EntryHead(e), DateFormatLines(e.dateFormat));
    CountBlankAppend(EntryHead(e) + DateFormatLines(e.dateFormat), EntryTail(e));
  }

  lemma HeadShape(e: SharedBuildNumber)
    ensures |EntryHead(e)| == 4 && CountBlank(EntryHead(e)) == 0
  {
    var head := EntryHead(e);
    assert |head[0]| > 0 && |head[1]| > 0 && |head[2]| > 0 && |head[3]| > 0;
    NoBlankLines(head);
  }

  lemma DateFormatShape(dateFormat: NString)
    ensures |DateFormatLines(dateFormat)| == (if WritesDateFormat(dateFormat) then 1 else 0)
    ensures CountBlank(DateFormatLines(dateFormat)) == 0
  {
    var date := DateFormatLines(dateFormat);
    assert forall i | 0 <= i < |date| :: |date[i]| > 0;
    NoBlankLines(date);
  }

  lemma TailShape(e: SharedBuildNumber)
    ensures |EntryTail(e)| == 2 && CountBlank(EntryTail(e)) == 0
  {
    var tail := EntryTail(e);
    assert |tail[0]| > 0 && |tail[1]| > 0;
    NoBlankLines(tail);
  }

  lemma {:induction false} NoBlankLines(lines: seq<string>)
    requires forall i | 0 <= i < |lines| :: |lines[i]| > 0
    ensures CountBlank(lines) == 0
    decreases |lines|
  {
    if lines != [] {
      NoBlankLines(lines[..|lines| - 1]);
    }
  }

  /**
   * Consecutive elements are separated by exactly one blank line, and nothing else in the
   * body is blank; the body is as long as its elements plus those separators.
   */
  lemma {:induction false} EntriesBodyLayout(es: seq<SharedBuildNumber>)
    ensures CountBlank(EntriesBody(es)) == if es == [] then 0 else |es| - 1
    ensures |EntriesBody(es)| == TotalEntrySize(es) + (if es == [] then 0 else |es| - 1)
  {
    if es != [] {
      var init := es[..|es| - 1];
      var sep: seq<string> := if |es| > 1 then [""] else [];
      EntriesBodyLayout(init);
      EntryLinesShape(es[|es| - 1]);
      CountBlankAppend(EntriesBody(init), sep);
      CountBlankAppend(EntriesBody(init) + sep, EntryLines(es[|es| - 1]));
      assert CountBlank(sep) == |sep| by {
        if |es| > 1 {
          assert sep[..0] == [];
        }
      }
    }
  }

  /** The written id sequence determines the value it was written from. */
  lemma SettingsLinesInjective(a: int, b: int)
    requires SettingsLines(a) == SettingsLines(b)
    ensures a == b
  {
    var pre := "\t\t<buildNumberIdSequence>";
    var post := "</buildNumberIdSequence>";
    var la := pre + IntToString(a) + post;
    var lb := pre + IntToString(b) + post;
    assert la == SettingsLines(a)[1] && lb == SettingsLines(b)[1];
    assert la[|pre|..|la| - |post|] == IntToString(a);
    assert lb[|pre|..|lb| - |post|] == IntToString(b);
    IntToStringInjective(a, b);
  }
}
