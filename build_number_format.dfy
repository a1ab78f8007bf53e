/**
 * How a shared build number's format turns into the build number text: every `{0}` becomes
 * the counter, and, when the result mentions `{d}` in either case, every `{d}` and `{D}`
 * becomes the formatted date.
 */
module BuildNumberFormat {
  import opened Wrappers
  import opened JavaString

  /**
   * `new SimpleDateFormat(pattern).format(new Date())`: the current time formatted with a
   * pattern, or none when the pattern is not a valid date pattern and the constructor throws.
   */
  type DateFormatter = string -> Option<string>

  /** Whether the number for `format` at `counter` mentions `{d}`, in either case, once the counter is in. */
  predicate NeedsDate(format: string, counter: int)
  {
    Contains(ToLower(Replace(format, "{0}", IntToString(counter))), "{d}")
  }

  /** The build number for `format` at `counter`; `date` is the date already formatted with the date format. */
  function FormatBuildNumber(format: string, counter: int, date: string): string
  {
    var number := Replace(format, "{0}", IntToString(counter));
    if NeedsDate(format, counter) then Replace(Replace(number, "{d}", date), "{D}", date)
    else number
  }

  /**
   * The text of a shared build number at `counter`, or none when building it throws: a null
   * format, or a number that needs the date while the date format is null or rejected by `now`.
   */
  function BuildNumberText(format: NString, counter: int, dateFormat: NString, now: DateFormatter): Option<string>
  {
    if format.Null? then None
    else if !NeedsDate(format.s, counter) then Some(FormatBuildNumber(format.s, counter, ""))
    else if dateFormat.Null? then None
    else match now(dateFormat.s)
      case None => None
      case Some(date) => Some(FormatBuildNumber(format.s, counter, date))
  }

  /**
   * Building a number throws exactly when the format is null, or when the date is needed
   * and cannot be formatted; otherwise the number is the format with the counter, and the
   * date when it is needed, put in.
   */
  lemma BuildNumberTextThrows(format: NString, counter: int, dateFormat: NString, now: DateFormatter)
    ensures BuildNumberText(format, counter, dateFormat, now).None? <==>
      format.Null? || (NeedsDate(format.s, counter) && (dateFormat.Null? || now(dateFormat.s).None?))
    ensures format.Str? && !NeedsDate(format.s, counter) ==>
      forall date :: BuildNumberText(format, counter, dateFormat, now) == Some(FormatBuildNumber(format.s, counter, date))
    ensures format.Str? && dateFormat.Str? && now(dateFormat.s).Some? ==>
      BuildNumberText(format, counter, dateFormat, now) == Some(FormatBuildNumber(format.s, counter, now(dateFormat.s).value))
  {
  }

  /** A format without placeholders is its own number, whatever the date format, even a null or invalid one. */
  lemma PlainFormatNeverThrows(format: string, counter: int, dateFormat: NString, now: DateFormatter)
    requires '{' !in format
    ensures BuildNumberText(Str(format), counter, dateFormat, now) == Some(format)
  {
    NoBraceNoPlaceholder(format);
    ReplaceAbsent(format, "{0}", IntToString(counter));
    FormatWithoutPlaceholders(format, counter, "");
  }

  /** `prefix{d}` throws when its date format is null or not a valid pattern. */
  lemma TrailingDateNeedsPattern(prefix: string, counter: int, dateFormat: NString, now: DateFormatter)
    requires '{' !in prefix
    requires dateFormat.Null? || now(dateFormat.s).None?
    ensures BuildNumberText(Str(prefix + "{d}"), counter, dateFormat, now) == None
  {
    DateNeededAfterPrefix(prefix, counter);
  }

  /** `prefix{d}` needs the date: the counter is not in it, and `{d}` follows the prefix. */
  lemma DateNeededAfterPrefix(prefix: string, counter: int)
    requires '{' !in prefix
    ensures Replace(prefix + "{d}", "{0}", IntToString(counter)) == prefix + "{d}"
    ensures NeedsDate(prefix + "{d}", counter)
  {
    var format := prefix + "{d}";
    assert !Contains(format, "{0}") by {
      forall i | 0 <= i <= |format| - 3 ensures !OccursAt(format, "{0}", i) {
        if i < |prefix| {
          assert format[i] == prefix[i];
        } else {
          assert format[i + 1] == 'd';
        }
      }
    }
    ReplaceAbsent(format, "{0}", IntToString(counter));
    assert OccursAt(ToLower(format), "{d}", |prefix|) by {
      assert ToLower(format)[|prefix|] == '{';
      assert ToLower(format)[|prefix| + 1] == 'd';
      assert ToLower(format)[|prefix| + 2] == '}';
    }
  }

  /** Text with no brace in it has no placeholder and is neither changed nor ever contains a `{d}`. */
  lemma NoBraceNoPlaceholder(s: string)
    requires '{' !in s
    ensures !Contains(s, "{0}") && !Contains(ToLower(s), "{d}") && !Contains(s, "{D}")
  {
    AbsentByFirstChar(s, "{0}");
    AbsentByFirstChar(s, "{D}");
    ToLowerKeeps(s, '{');
    AbsentByFirstChar(ToLower(s), "{d}");
  }

  /** A format without placeholders is its own build number, whatever the counter and the date. */
  lemma FormatWithoutPlaceholders(format: string, counter: int, date: string)
    requires '{' !in format
    ensures FormatBuildNumber(format, counter, date) == format
  {
    NoBraceNoPlaceholder(format);
    ReplaceAbsent(format, "{0}", IntToString(counter));
  }

  /** `prefix{0}`: the counter in decimal follows the prefix, and the date plays no part. */
  lemma FormatTrailingCounter(prefix: string, counter: int, date: string)
    requires '{' !in prefix
    ensures FormatBuildNumber(prefix + "{0}", counter, date) == prefix + IntToString(counter)
  {
    var digits := IntToString(counter);
    ReplaceAfterPlainText(prefix, "{0}", digits, []);
    assert prefix + "{0}" + [] == prefix + "{0}";
    assert Replace([], "{0}", digits) == [];
    assert prefix + digits + [] == prefix + digits;
    NoBraceInNumber(counter);
    NoBraceNoPlaceholder(prefix + digits);
  }

  /** Different counters give different build numbers for a `prefix{0}` format. */
  lemma FormatDistinctCounters(prefix: string, a: int, b: int, date: string)
    requires '{' !in prefix && a != b
    ensures FormatBuildNumber(prefix + "{0}", a, date) != FormatBuildNumber(prefix + "{0}", b, date)
  {
    FormatTrailingCounter(prefix, a, date);
    FormatTrailingCounter(prefix, b, date);
    if prefix + IntToString(a) == prefix + IntToString(b) {
      assert (prefix + IntToString(a))[|prefix|..] == IntToString(a);
      assert (prefix + IntToString(b))[|prefix|..] == IntToString(b);
      IntToStringInjective(a, b);
    }
  }

  /** `prefix{d}`: the date follows the prefix, and the counter plays no part. */
  lemma FormatTrailingDate(prefix: string, counter: int, date: string)
    requires '{' !in prefix && '{' !in date
    ensures FormatBuildNumber(prefix + "{d}", counter, date) == prefix + date
  {
    DateNeededAfterPrefix(prefix, counter);
    ReplaceAfterPlainText(prefix, "{d}", date, []);
    assert prefix + "{d}" + [] == prefix + "{d}";
    assert Replace([], "{d}", date) == [];
    assert prefix + date + [] == prefix + date;
    NoBraceNoPlaceholder(prefix + date);
    ReplaceAbsent(prefix + date, "{D}", date);
  }
}
