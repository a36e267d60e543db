/**
 * The text main.js derives from a selected offset and a meeting moment: the
 * two-digit `pad`, the signed `formatOffset`, the letter time code, the local
 * note and badge built from templates, the offset label, and the rounding
 * that pre-selects the slider from the device's zone.
 *
 * Instants are integer milliseconds since the epoch (`Date.getTime()`); a
 * device offset is `getTimezoneOffset()`, the minutes to add to local time to
 * reach UTC.
 */
module Formatting {
  import opened JsStrings
  import opened Letters
  import opened Locale

  // ---------------------------------------------------------------------
  // pad and formatOffset
  // ---------------------------------------------------------------------

  /** `pad`: the decimal form of `num`, left-padded with '0' to two characters. */
  function Pad(num: int): (s: string)
    ensures |s| >= 2
    ensures 0 <= num < 100 ==> |s| == 2 && AllDigits(s) && DecimalValue(s) == num
    ensures |IntToString(num)| >= 2 ==> s == IntToString(num)
  {
    var t := IntToString(num);
    PadTwoDigits(num);
    PadStart(t, 2, '0')
  }

  /** For 0..99, `pad` gives the tens digit then the units digit. */
  lemma PadTwoDigits(n: int)
    ensures 0 <= n < 100 ==> PadStart(IntToString(n), 2, '0') == [DigitChar(n / 10), DigitChar(n % 10)]
  {
    if 0 <= n < 10 { PadOne(n); } else if 10 <= n < 100 { PadTwo(n); }
  }
  lemma PadOne(n: int)
    requires 0 <= n < 10
    ensures PadStart(IntToString(n), 2, '0') == [DigitChar(n / 10), DigitChar(n % 10)]
  {
    var d := DigitChar(n);
    assert NatToDecimal(n) == [d];
    assert IntToString(n) == [d];
    var p := PadStart([d], 2, '0');
    assert p == seq(1, _ => '0') + [d];
    assert p == ['0', d];
    assert n / 10 == 0 && n % 10 == n;
    assert DigitChar(0) == '0';
  }
  lemma PadTwo(n: int)
    requires 10 <= n < 100
    ensures PadStart(IntToString(n), 2, '0') == [DigitChar(n / 10), DigitChar(n % 10)]
  {
      assert NatToDecimal(n / 10) == [DigitChar(n / 10)];
      assert IntToString(n) == [DigitChar(n / 10), DigitChar(n % 10)];
  }
  /** `formatOffset`: '+' in front of a non-negative offset; a negative one keeps its '-'. */
  function FormatOffset(offset: int): (s: string)
    ensures |s| >= 2 && s[0] == (if offset >= 0 then '+' else '-')
    ensures IsCanonicalDecimal(s[1..])
    ensures DecimalValue(s[1..]) == if offset >= 0 then offset else -offset
  {
    var t := IntToString(offset);
    var s := (if offset >= 0 then "+" else "") + t;
    assert offset >= 0 ==> s[1..] == t;
    assert offset < 0 ==> s == t;
    s
  }

  /** A sign followed by digits. */
  predicate IsOffsetText(s: string)
  {
    |s| >= 2 && (s[0] == '+' || s[0] == '-') && AllDigits(s[1..])
  }

  /** Reads a signed offset back. */
  function ParseOffset(s: string): int
    requires IsOffsetText(s)
  {
    var magnitude: int := DecimalValue(s[1..]);
    if s[0] == '-' then -magnitude else magnitude
  }

  /** Every formatted offset reads back as the offset. */
  lemma ParseOffsetOfFormatOffset(offset: int)
    ensures IsOffsetText(FormatOffset(offset))
    ensures ParseOffset(FormatOffset(offset)) == offset
  {
  }

  /**
   * Every signed canonical decimal other than "-0" is the formatted form of
   * the offset it denotes, so `formatOffset` is a bijection onto those texts.
   */
  lemma FormatOffsetOfParseOffset(s: string)
    requires IsOffsetText(s) && IsCanonicalDecimal(s[1..])
    requires s[0] == '-' ==> s[1..] != "0"
    ensures FormatOffset(ParseOffset(s)) == s
  {
    var v := DecimalValue(s[1..]);
    NatToDecimalOfDecimalValue(s[1..]);
    assert NatToDecimal(0) == "0";
    if s[0] == '-' {
      assert v != 0;
      assert s == "-" + NatToDecimal(v);
    } else {
      assert s == "+" + NatToDecimal(v);
    }
  }

  // ---------------------------------------------------------------------
  // Clock fields
  // ---------------------------------------------------------------------

  /** `getHours()` of a Date whose local wall clock reads `wallMs` after the epoch. */
  function HoursOf(wallMs: int): (h: nat)
    ensures h < 24
  {
    (wallMs / 3600000) % 24
  }

  /** `getMinutes()` of a Date whose local wall clock reads `wallMs` after the epoch. */
  function MinutesOf(wallMs: int): (m: nat)
    ensures m < 60
  {
    (wallMs / 60000) % 60
  }

  /** `getSeconds()` of a Date whose local wall clock reads `wallMs` after the epoch. */
  function SecondsOf(wallMs: int): (s: nat)
    ensures s < 60
  {
    (wallMs / 1000) % 60
  }

  /** The local wall-clock reading of an instant in a zone `tzMinutes` behind UTC. */
  function WallClock(instantMs: int, tzMinutes: int): int
  {
    instantMs - tzMinutes * 60000
  }

  /** Shifting by whole minutes leaves the seconds field alone. */
  lemma SecondsIgnoreWholeMinutes(t: int, k: int)
    ensures SecondsOf(t + k * 60000) == SecondsOf(t)
  {
    assert (t + k * 60000) / 1000 == t / 1000 + 60 * k;
  }

  /** Shifting by whole hours leaves the minutes field alone. */
  lemma MinutesIgnoreWholeHours(t: int, h: int)
    ensures MinutesOf(t + h * 3600000) == MinutesOf(t)
  {
    assert (t + h * 3600000) / 60000 == t / 60000 + 60 * h;
  }

  // ---------------------------------------------------------------------
  // The time code
  // ---------------------------------------------------------------------

  /**
   * The instant main.js formats: `getTime() + getTimezoneOffset() * 60000`,
   * shifted by the selected offset in hours.
   */
  function TargetInstant(selectedOffset: int, instantMs: int, tzMinutes: int): int
  {
    instantMs + tzMinutes * 60000 + selectedOffset * 3600000
  }

  /**
   * The time code `letter + pad(minutes) + ':' + pad(seconds)`. `getMinutes`
   * and `getSeconds` read the target Date in the device's zone, whose offset at
   * that instant is `targetTzMinutes`.
   */
  function TimeCode(selectedOffset: int, instantMs: int, tzMinutes: int, targetTzMinutes: int): (code: string)
    ensures |code| == 6 && code[3] == ':'
    ensures code[0] == OffsetToLetter(selectedOffset)
    ensures AllDigits(code[1..3]) && AllDigits(code[4..])
    ensures DecimalValue(code[4..]) == SecondsOf(instantMs)
    ensures DecimalValue(code[1..3])
      == MinutesOf(WallClock(TargetInstant(selectedOffset, instantMs, tzMinutes), targetTzMinutes))
  {
    var wall := WallClock(TargetInstant(selectedOffset, instantMs, tzMinutes), targetTzMinutes);
    WallClockOfTarget(selectedOffset, instantMs, tzMinutes, targetTzMinutes);
    var mm := Pad(MinutesOf(wall));
    var ss := Pad(SecondsOf(wall));
    ClockTextParts([OffsetToLetter(selectedOffset)], mm, ss);
    [OffsetToLetter(selectedOffset)] + mm + ":" + ss
  }

  /** The seconds field of the formatted instant is that of the selected instant. */
  lemma WallClockOfTarget(selectedOffset: int, instantMs: int, tzMinutes: int, targetTzMinutes: int)
    ensures SecondsOf(WallClock(TargetInstant(selectedOffset, instantMs, tzMinutes), targetTzMinutes))
      == SecondsOf(instantMs)
  {
    var k := tzMinutes + 60 * selectedOffset - targetTzMinutes;
    assert WallClock(TargetInstant(selectedOffset, instantMs, tzMinutes), targetTzMinutes)
      == instantMs + k * 60000;
    SecondsIgnoreWholeMinutes(instantMs, k);
  }

  /** Where the pieces of `head + a + ':' + b` sit. */
  lemma ClockTextParts(head: string, a: string, b: string)
    ensures var text := head + a + ":" + b;
      |text| == |head| + |a| + 1 + |b| && text[..|head|] == head
      && text[|head|..|head| + |a|] == a && text[|head| + |a|] == ':' && text[|head| + |a| + 1..] == b
  {
    var text := head + a + ":" + b;
    assert text[..|head|] == head;
    assert text[|head|..|head| + |a|] == a;
    assert text[|head| + |a| + 1..] == b;
  }

  /** Where the pieces of `a + ':' + b` sit. */
  lemma FieldPairParts(a: string, b: string)
    ensures var text := a + ":" + b;
      |text| == |a| + 1 + |b| && text[..|a|] == a && text[|a|] == ':' && text[|a| + 1..] == b
  {
    var text := a + ":" + b;
    assert text[..|a|] == a;
    assert text[|a| + 1..] == b;
  }

  /** Everything after the letter: the padded minutes and seconds of the formatted instant. */
  lemma TimeCodeTail(selectedOffset: int, instantMs: int, tzMinutes: int, targetTzMinutes: int)
    ensures var wall := WallClock(TargetInstant(selectedOffset, instantMs, tzMinutes), targetTzMinutes);
      TimeCode(selectedOffset, instantMs, tzMinutes, targetTzMinutes)[1..]
        == Pad(MinutesOf(wall)) + ":" + Pad(SecondsOf(wall))
  {
  }

  /**
   * When the device's zone has the same offset at the selected and at the
   * target instant, the minutes are the instant's own UTC minutes: the code
   * differs between offsets only in its letter.
   */
  lemma TimeCodeIgnoresOffset(o1: int, o2: int, instantMs: int, tzMinutes: int)
    ensures TimeCode(o1, instantMs, tzMinutes, tzMinutes)[1..]
      == TimeCode(o2, instantMs, tzMinutes, tzMinutes)[1..]
    ensures DecimalValue(TimeCode(o1, instantMs, tzMinutes, tzMinutes)[1..3]) == MinutesOf(instantMs)
  {
    var w1 := WallClock(TargetInstant(o1, instantMs, tzMinutes), tzMinutes);
    var w2 := WallClock(TargetInstant(o2, instantMs, tzMinutes), tzMinutes);
    WallClockSameZone(o1, instantMs, tzMinutes);
    WallClockSameZone(o2, instantMs, tzMinutes);
    MinutesIgnoreWholeHours(instantMs, o1);
    MinutesIgnoreWholeHours(instantMs, o2);
    assert MinutesOf(w1) == MinutesOf(w2) == MinutesOf(instantMs);
    WallClockOfTarget(o1, instantMs, tzMinutes, tzMinutes);
    WallClockOfTarget(o2, instantMs, tzMinutes, tzMinutes);
    assert SecondsOf(w1) == SecondsOf(w2);
    TimeCodeTail(o1, instantMs, tzMinutes, tzMinutes);
    TimeCodeTail(o2, instantMs, tzMinutes, tzMinutes);
  }

  /** With one device offset throughout, the formatted wall clock is the instant shifted by whole hours. */
  lemma WallClockSameZone(selectedOffset: int, instantMs: int, tzMinutes: int)
    ensures WallClock(TargetInstant(selectedOffset, instantMs, tzMinutes), tzMinutes)
      == instantMs + selectedOffset * 3600000
  {
  }

  /** The code decodes: its letter gives back an in-range offset. */
  lemma TimeCodeLetterDecodes(selectedOffset: int, instantMs: int, tzMinutes: int, targetTzMinutes: int)
    requires InZoneRange(selectedOffset)
    ensures LetterToOffset(TimeCode(selectedOffset, instantMs, tzMinutes, targetTzMinutes)[0]) == Some(selectedOffset)
  {
    LetterToOffsetOfOffsetToLetter(selectedOffset);
  }

  /** The local label `pad(getHours()) + ':' + pad(getMinutes())` of the selected moment. */
  function LocalLabel(instantMs: int, tzMinutes: int): (text: string)
    ensures |text| == 5 && text[2] == ':'
    ensures AllDigits(text[..2]) && DecimalValue(text[..2]) == HoursOf(WallClock(instantMs, tzMinutes))
    ensures AllDigits(text[3..]) && DecimalValue(text[3..]) == MinutesOf(WallClock(instantMs, tzMinutes))
  {
    var wall := WallClock(instantMs, tzMinutes);
    var hh := Pad(HoursOf(wall));
    var mm := Pad(MinutesOf(wall));
    FieldPairParts(hh, mm);
    hh + ":" + mm
  }

  // ---------------------------------------------------------------------
  // Notes, badge and offset label
  // ---------------------------------------------------------------------

  const TimeMarker: string := "{{time}}"
  const OffsetMarker: string := "{{offset}}"
  const LetterMarker: string := "{{letter}}"
  /** "Local time: {{time}} (UTC{{offset}})" */
  const DefaultNoteTemplate: string := "Local time: {{time}} (UTC{{offset}})"
  /** "Local offset: UTC{{offset}} → {{letter}}" */
  const DefaultBadgeTemplate: string := "Local offset: UTC{{offset}} \U{2192} {{letter}}"
  const NameSeparator: string := " \U{2014} "

  /**
   * The note template with its time and offset markers filled in, first
   * occurrence each; a template without markers is shown as it is.
   */
  function FillNoteTemplate(template: string, localLabel: string, offsetLabel: string): (note: string)
    ensures (forall j :: !OccursAt(template, TimeMarker, j)) && (forall j :: !OccursAt(template, OffsetMarker, j))
      ==> note == template
  {
    ReplaceFirst(ReplaceFirst(template, TimeMarker, localLabel), OffsetMarker, offsetLabel)
  }

  /**
   * A template `pre {{time}} mid {{offset}} post` with no '{' before either
   * marker has each marker replaced where it stands.
   */
  lemma FillNoteTemplateInPlace(pre: string, mid: string, post: string, localLabel: string, offsetLabel: string)
    requires '{' !in pre && '{' !in mid && '{' !in localLabel
    ensures FillNoteTemplate(pre + TimeMarker + (mid + OffsetMarker + post), localLabel, offsetLabel)
      == pre + localLabel + mid + offsetLabel + post
  {
    ReplaceTwoInOrder(pre, TimeMarker, mid, OffsetMarker, post, localLabel, offsetLabel);
  }

  /**
   * `name ? name + ' — ' + baseNote : baseNote` with `name` the trimmed
   * meeting name: a blank name leaves the note as it is.
   */
  function PrefixMeetingName(meetingName: string, baseNote: string): (note: string)
    ensures |baseNote| <= |note| && note[|note| - |baseNote|..] == baseNote
    ensures note == baseNote <==> AllWhitespace(meetingName)
    ensures !AllWhitespace(meetingName) ==> note[..|note| - |baseNote|] == Trim(meetingName) + NameSeparator
  {
    var name := Trim(meetingName);
    if name != "" then
      var note := name + NameSeparator + baseNote;
      assert note[|note| - |baseNote|..] == baseNote;
      note
    else baseNote
  }

  /**
   * `-getTimezoneOffset() / 60`: the device's UTC offset in hours, for a zone
   * a whole number of hours from UTC.
   */
  function DeviceOffsetHours(tzMinutes: int): (h: int)
    requires tzMinutes % 60 == 0
    ensures h * 60 == -tzMinutes
  {
    -tzMinutes / 60
  }

  /**
   * The "UTC±h" of the note names the zone of its "HH:MM": the local wall
   * clock is the instant shifted by the device's offset in whole hours.
   */
  lemma DeviceOffsetMatchesWallClock(instantMs: int, tzMinutes: int)
    requires tzMinutes % 60 == 0
    ensures WallClock(instantMs, tzMinutes) == instantMs + DeviceOffsetHours(tzMinutes) * 3600000
  {
    var h := DeviceOffsetHours(tzMinutes);
    assert tzMinutes * 60000 == -(h * 60) * 60000;
  }

  /**
   * The note under the code: the translated template (or the built-in one)
   * filled with the local label and the device's offset in hours, behind the
   * trimmed meeting name and " — " unless the name is blank.
   */
  function NoteText(translations: Translations, localLabel: string, deviceOffsetHours: int, meetingName: string): (note: string)
    ensures var filled := FillNoteTemplate(TextOr(translations, "formattedNote", DefaultNoteTemplate),
                                           localLabel, FormatOffset(deviceOffsetHours));
      (AllWhitespace(meetingName) ==> note == filled)
      && (!AllWhitespace(meetingName) ==> note == Trim(meetingName) + NameSeparator + filled)
  {
    var template := TextOr(translations, "formattedNote", DefaultNoteTemplate);
    var filled := FillNoteTemplate(template, localLabel, FormatOffset(deviceOffsetHours));
    var note := PrefixMeetingName(meetingName, filled);
    assert !AllWhitespace(meetingName) ==> note[..|note| - |filled|] + filled == note;
    note
  }

  /** The local label holds digits and ':' only, so it never starts a marker. */
  lemma LocalLabelHasNoBrace(instantMs: int, tzMinutes: int)
    ensures '{' !in LocalLabel(instantMs, tzMinutes)
  {
    var text := LocalLabel(instantMs, tzMinutes);
    forall i | 0 <= i < |text| ensures text[i] != '{' {
      if i < 2 {
        assert text[i] == text[..2][i];
      } else if i > 2 {
        assert text[i] == text[3..][i - 3];
      }
    }
  }

  /**
   * The note for the selected moment without a translated template:
   * "Local time: HH:MM (UTC±h)", behind the meeting name if one is given.
   */
  lemma DefaultNote(translations: Translations, instantMs: int, tzMinutes: int, meetingName: string)
    requires "formattedNote" !in translations || translations["formattedNote"] == ""
    requires tzMinutes % 60 == 0
    ensures var localLabel := LocalLabel(instantMs, tzMinutes);
      NoteText(translations, localLabel, DeviceOffsetHours(tzMinutes), meetingName)
        == PrefixMeetingName(meetingName,
             "Local time: " + localLabel + " (UTC" + FormatOffset(DeviceOffsetHours(tzMinutes)) + ")")
  {
    LocalLabelHasNoBrace(instantMs, tzMinutes);
    DefaultNoteLiterals();
    DefaultNoteTemplateParts();
    FillNoteTemplateInPlace("Local time: ", " (UTC", ")", LocalLabel(instantMs, tzMinutes),
      FormatOffset(DeviceOffsetHours(tzMinutes)));
  }

  lemma DefaultNoteLiterals()
    ensures '{' !in "Local time: " && '{' !in " (UTC"
  {
  }

  /** The built-in note template, cut at its two markers. */
  lemma DefaultNoteTemplateParts()
    ensures DefaultNoteTemplate == "Local time: " + TimeMarker + (" (UTC" + OffsetMarker + ")")
  {
  }

  /**
   * The note for the selected moment with a translated template
   * `pre {{time}} mid {{offset}} post`, no '{' before either marker: both are
   * filled where they stand, behind the meeting name if one is given.
   */
  lemma TranslatedNoteInPlace(translations: Translations, pre: string, mid: string, post: string,
                              instantMs: int, tzMinutes: int, meetingName: string)
    requires "formattedNote" in translations
    requires translations["formattedNote"] == pre + TimeMarker + (mid + OffsetMarker + post)
    requires '{' !in pre && '{' !in mid
    requires tzMinutes % 60 == 0
    ensures var localLabel := LocalLabel(instantMs, tzMinutes);
      NoteText(translations, localLabel, DeviceOffsetHours(tzMinutes), meetingName)
        == PrefixMeetingName(meetingName, pre + localLabel + mid + FormatOffset(DeviceOffsetHours(tzMinutes)) + post)
  {
    LocalLabelHasNoBrace(instantMs, tzMinutes);
    FillNoteTemplateInPlace(pre, mid, post, LocalLabel(instantMs, tzMinutes), FormatOffset(DeviceOffsetHours(tzMinutes)));
  }

  /**
   * The local-offset badge: the offset marker, then the letter marker, first
   * occurrence each; a template without markers is shown as it is.
   */
  function LocalBadge(translations: Translations, offsetHours: int): (badge: string)
    ensures var template := TextOr(translations, "localBadge", DefaultBadgeTemplate);
      ((forall j :: !OccursAt(template, OffsetMarker, j)) && (forall j :: !OccursAt(template, LetterMarker, j))
       ==> badge == template)
  {
    var template := TextOr(translations, "localBadge", DefaultBadgeTemplate);
    ReplaceFirst(ReplaceFirst(template, OffsetMarker, FormatOffset(offsetHours)), LetterMarker, [OffsetToLetter(offsetHours)])
  }

  /**
   * A translated badge `pre {{offset}} mid {{letter}} post`, no '{' before
   * either marker, reads `pre`, the formatted offset, `mid`, the letter, `post`.
   */
  lemma TranslatedBadgeInPlace(translations: Translations, pre: string, mid: string, post: string, tzMinutes: int)
    requires "localBadge" in translations
    requires translations["localBadge"] == pre + OffsetMarker + (mid + LetterMarker + post)
    requires '{' !in pre && '{' !in mid
    requires tzMinutes % 60 == 0
    ensures var offset := DeviceOffsetHours(tzMinutes);
      LocalBadge(translations, offset) == pre + FormatOffset(offset) + mid + [OffsetToLetter(offset)] + post
  {
    var offset := DeviceOffsetHours(tzMinutes);
    FormatOffsetHasNoBrace(offset);
    ReplaceTwoInOrder(pre, OffsetMarker, mid, LetterMarker, post, FormatOffset(offset), [OffsetToLetter(offset)]);
  }

  /**
   * Without a translated badge it reads "Local offset: UTC±h → L", with `h`
   * the device's offset in hours and `L` its letter.
   */
  lemma DefaultBadge(translations: Translations, tzMinutes: int)
    requires "localBadge" !in translations || translations["localBadge"] == ""
    requires tzMinutes % 60 == 0
    ensures var offset := DeviceOffsetHours(tzMinutes);
      LocalBadge(translations, offset)
        == "Local offset: UTC" + FormatOffset(offset) + " \U{2192} " + [OffsetToLetter(offset)]
  {
    var offset := DeviceOffsetHours(tzMinutes);
    var offsetText := FormatOffset(offset);
    var letter := [OffsetToLetter(offset)];
    FormatOffsetHasNoBrace(offset);
    DefaultBadgeLiterals();
    DefaultBadgeTemplateParts();
    ReplaceTwoInOrder("Local offset: UTC", OffsetMarker, " \U{2192} ", LetterMarker, "", offsetText, letter);
    EmptySuffix("Local offset: UTC" + offsetText + " \U{2192} " + letter);
  }

  lemma DefaultBadgeLiterals()
    ensures '{' !in "Local offset: UTC" && '{' !in " \U{2192} "
  {
  }

  /** The built-in badge template, cut at its two markers. */
  lemma DefaultBadgeTemplateParts()
    ensures DefaultBadgeTemplate == "Local offset: UTC" + OffsetMarker + (" \U{2192} " + LetterMarker + "")
  {
  }

  lemma EmptySuffix(s: string)
    ensures s + "" == s
  {
  }

  /** A formatted offset holds only a sign and digits. */
  lemma FormatOffsetHasNoBrace(offset: int)
    ensures '{' !in FormatOffset(offset)
  {
    var t := FormatOffset(offset);
    forall i | 1 <= i < |t| ensures t[i] != '{' {
      assert t[1..][i - 1] == t[i];
    }
  }

  /** `(translations.referenceUTC || 'UTC') + formatOffset(offset)`. */
  function OffsetDisplay(translations: Translations, offset: int): (text: string)
    ensures |FormatOffset(offset)| < |text|
    ensures text[|text| - |FormatOffset(offset)|..] == FormatOffset(offset)
    ensures IsOffsetText(text[|text| - |FormatOffset(offset)|..])
    ensures ParseOffset(text[|text| - |FormatOffset(offset)|..]) == offset
    ensures text[..|text| - |FormatOffset(offset)|] == TextOr(translations, "referenceUTC", "UTC")
  {
    var prefix := TextOr(translations, "referenceUTC", "UTC");
    var text := prefix + FormatOffset(offset);
    assert text[|prefix|..] == FormatOffset(offset);
    assert text[..|prefix|] == prefix;
    text
  }

  // ---------------------------------------------------------------------
  // Slider pre-selection
  // ---------------------------------------------------------------------

  /** `Math.round(minutes / 60)`: the nearest whole hour, halves rounding up. */
  function RoundToHour(minutes: int): (h: int)
    ensures h * 60 - 30 <= minutes < h * 60 + 30
  {
    (minutes + 30) / 60
  }

  /** `-Math.round(getTimezoneOffset() / 60)`: the device's UTC offset to the nearest hour. */
  function SliderOffset(tzMinutes: int): (offset: int)
    ensures -30 <= tzMinutes + offset * 60 < 30
  {
    -RoundToHour(tzMinutes)
  }

  /** The slider offset is the only whole hour within that half-open half hour. */
  lemma SliderOffsetUnique(tzMinutes: int, h: int)
    requires -30 <= tzMinutes + h * 60 < 30
    ensures h == SliderOffset(tzMinutes)
  {
    var o := SliderOffset(tzMinutes);
    assert -60 < (h - o) * 60 < 60;
  }

  /** The slider lands on a lettered offset exactly for device offsets in [-750, 750) minutes. */
  lemma SliderOffsetInRange(tzMinutes: int)
    ensures InZoneRange(SliderOffset(tzMinutes)) <==> -750 <= tzMinutes < 750
  {
  }
}
