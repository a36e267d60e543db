/**
 * Concrete instances of the formatting rules: a time code, a translated note
 * and the slider's rounding for a half-hour zone.
 */
module WorkedExamples {
  import opened JsStrings
  import opened Letters
  import opened Locale
  import opened Formatting

  /** At 00:05:09 UTC with the slider on 0 and a device on UTC, the code is "Z05:09". */
  lemma TimeCodeAtUtc()
    ensures TimeCode(0, 309000, 0, 0) == "Z05:09"
  {
    TimeCodeAtUtcParts();
    PadsAtUtc();
    JoinCode();
  }

  // The steps of TimeCodeAtUtc, one lemma each: literal arithmetic and
  // literal strings are costly for the solver when they share one proof.

  lemma TimeCodeAtUtcParts()
    ensures TimeCode(0, 309000, 0, 0) == ['Z'] + Pad(5) + ":" + Pad(9)
  {
    WallClockAtUtc();
    ClockFieldsAtUtc();
  }

  lemma PadsAtUtc()
    ensures Pad(5) == "05" && Pad(9) == "09"
  {
    PadDigit(5);
    PadDigit(9);
    assert DigitChar(5) == '5' && DigitChar(9) == '9';
  }

  lemma JoinCode()
    ensures ['Z'] + "05" + ":" + "09" == "Z05:09"
  {
  }

  lemma WallClockAtUtc()
    ensures WallClock(TargetInstant(0, 309000, 0), 0) == 309000
  {
  }

  lemma ClockFieldsAtUtc()
    ensures MinutesOf(309000) == 5 && SecondsOf(309000) == 9
  {
  }

  /** A single digit is padded with one leading '0'. */
  lemma PadDigit(n: int)
    requires 0 <= n < 10
    ensures Pad(n) == ['0', DigitChar(n)]
  {
    PadTwoDigits(n);
    assert DigitChar(0) == '0';
  }

  /** A translated template "At {{time}} ({{offset}})" reads "At 14:30 (+2)". */
  lemma TranslatedNote()
    ensures NoteText(map["formattedNote" := "At {{time}} ({{offset}})"], "14:30", 2, "")
      == "At 14:30 (+2)"
  {
    var translations := map["formattedNote" := "At {{time}} ({{offset}})"];
    TranslatedTemplate(translations);
    TranslatedNoteFilled();
    assert AllWhitespace("");
  }

  lemma TranslatedTemplate(translations: Translations)
    requires translations == map["formattedNote" := "At {{time}} ({{offset}})"]
    ensures TextOr(translations, "formattedNote", DefaultNoteTemplate)
      == "At " + TimeMarker + (" (" + OffsetMarker + ")")
  {
  }

  lemma TranslatedNoteFilled()
    ensures FillNoteTemplate("At " + TimeMarker + (" (" + OffsetMarker + ")"), "14:30", FormatOffset(2))
      == "At 14:30 (+2)"
  {
    TranslatedNoteLiterals();
    FormatOffsetTwo();
    ReplaceTwoInOrder("At ", TimeMarker, " (", OffsetMarker, ")", "14:30", "+2");
    JoinNote();
  }

  lemma FormatOffsetTwo()
    ensures FormatOffset(2) == "+2"
  {
    assert NatToDecimal(2) == "2";
  }

  lemma JoinNote()
    ensures "At " + "14:30" + " (" + "+2" + ")" == "At 14:30 (+2)"
  {
  }

  lemma TranslatedNoteLiterals()
    ensures '{' !in "At " && '{' !in " (" && '{' !in "14:30"
  {
  }

  /** India's device offset of -330 minutes is half-way between +5 and +6: the slider takes +5 ('E'). */
  lemma SliderForHalfHourZone()
    ensures SliderOffset(-330) == 5 && OffsetToLetter(SliderOffset(-330)) == 'E'
  {
  }
}
