# alphatime.world: a verified model of the time-code logic

alphatime.world is a one-page web app. It turns a meeting moment and a
selected whole-hour UTC offset into a short "military" time code, such as
`Z05:09`. The code is the zone's letter followed by the minutes and seconds of
the moment in that zone. The page also shows three texts and pre-selects the
offset slider:

- a note giving the local time and the device's UTC offset, optionally behind
  a meeting name;
- a badge with the device's offset and its letter;
- an offset label such as `UTC+2`.

This project models the pure logic of `main.js` in Dafny and proves its
properties. Five modules cover it:

- `JsStrings` holds the JavaScript built-ins the page relies on: `String(n)`,
  `padStart`, `replace` with a string pattern (first occurrence only), `trim`,
  `toLowerCase` and `split(sep)[0]`. Each is stated over `string`, with the
  decimal reading that inverts `String(n)`.
- `Letters` holds the letter tables and `offsetToLetter`, with an inverse stated
  by alphabet position. It also holds `letterEntries`, an imperative method with
  the source's two push loops. The grid's descending sort runs in place on an
  array with the source's comparator.
- `Locale` holds `detectLocale`, the choice of the active translations and the
  `translations.key || default` lookups.
- `Formatting` holds `pad`, `formatOffset`, the time code, the local label, the
  note and badge templates, the offset label and the slider's rounding.
  Instants are integer milliseconds since the epoch. Device offsets are
  `getTimezoneOffset()` minutes, passed in as parameters.
- `WorkedExamples` holds concrete instances of these rules.

## Model

| member | source | states |
|---|---|---|
| Letters.OffsetToLetter | main.js:22-27 | the sentinel '?' exactly for offsets outside [-12, 12]; 'Z' exactly for 0; in range, a letter A..Z other than J |
| Letters.LetterToOffset | main.js:14-15 | the tables as the military scheme (A..I = +1..+9, K..M = +10..+12, N..Y = -1..-12, Z = 0): defined exactly on A..Z without J, always in range |
| Letters.LetterToOffsetOfOffsetToLetter | main.js:22-27 | every offset in [-12, 12] is read back from its letter |
| Letters.OffsetToLetterOfLetterToOffset | main.js:22-27 | every letter of the scheme is the letter of the offset it stands for |
| Letters.OffsetToLetterInjective | main.js:22-27 | no two offsets in range share a letter |
| Letters.OffsetToLetterOnto | main.js:22-27 | every letter A..Z other than J is some in-range offset's letter |
| Letters.LetterEntries | main.js:29-38 | 25 entries: Z/0 first, then offsets 1..12, then -1..-12, in push order; each letter is `offsetToLetter` of its offset; all offsets distinct and in range |
| Letters.SortByOffsetDescending | main.js:47 | after the sort, every pair is in an order the comparator `b.offset - a.offset` accepts, and the array is a permutation of the input |
| Letters.InsertBackward | main.js:47 | one insertion step: `a[..i + 1]` becomes sorted and holds the same entries as before (the old prefix and `a[i]`); `a[i + 1..]` is untouched; the array stays a permutation |
| Letters.SiftBackward | main.js:47 | moving `a[i]` back: `a[..i + 1]` becomes sorted, `a[i + 1..]` is untouched, and the array stays a permutation |
| Letters.PrefixMultiset | main.js:47 | two permutations that agree from position k on hold the same entries before k |
| Letters.SwapAdjacent | main.js:47 | exchanges two neighbours and leaves every other cell and the multiset unchanged |
| Letters.PermutationKeepsDistinct | main.js:47 | a permutation of entries with distinct offsets keeps distinct offsets, all drawn from the original |
| Letters.SortedDistinctIsCountdown | main.js:47 | 25 distinct in-range offsets sorted by the comparator are exactly 12, 11, ..., -12 |
| Letters.SortedLetterEntries | main.js:46-47 | the grid shows offsets +12 down to -12, one per column, each with its own letter |
| Locale.BrowserLanguage | main.js:66 | the lower-cased `navigator.language`; 'en-us' when the language is empty; never empty and free of upper-case ASCII |
| Locale.PrimarySubtag | main.js:68 | the prefix before the first '-', or the whole tag |
| Locale.DetectLocale | main.js:65-71 | the result is an available key or 'en-us'. An available browser language wins. When it is missing and its primary subtag is available, the subtag wins. Any other non-default result is that subtag. 'en-us' comes back while missing only when both are missing. The result is lower-case |
| Locale.DetectLocaleIgnoresCase | main.js:66 | languages that differ only in ASCII case pick the same locale |
| Locale.ActiveTranslations | main.js:107 | the active locale's dictionary when present, else the 'en-us' one, else none (`undefined`) |
| Locale.LoadedTranslations | main.js:106-107 | after `detectLocale`, the 'en-us' fallback never supplies a different dictionary; the result is `undefined` exactly when neither the language, its subtag nor 'en-us' is in the file |
| Locale.TextOr | main.js:144 | `translations[key] \|\| fallback`: a missing or empty entry reads as the fallback |
| JsStrings.IntToString | main.js:42 | `String(n)`: a leading '-' exactly for negatives, followed by the canonical decimal of the magnitude |
| JsStrings.DecimalValueOfNatToDecimal | main.js:42 | the decimal form of n reads back as n |
| JsStrings.NatToDecimalOfDecimalValue | main.js:42 | every canonical digit string is the decimal form of its value |
| JsStrings.PadStart | main.js:20 | `padStart`: the length is at least the width, the input is a suffix, and everything before it is the fill character |
| JsStrings.IndexOfFrom | main.js:145-147 | `indexOf`: the result is an occurrence with none before it, or there is none at all |
| JsStrings.ReplaceFirst | main.js:145-147 | `replace` with a string pattern: unchanged without an occurrence; otherwise only the first occurrence is replaced |
| JsStrings.ReplaceFirstAfterPrefix | main.js:145-147 | a marker whose first character does not occur before it is the one replaced |
| JsStrings.ReplaceTwoInOrder | main.js:159-161 | two chained replacements fill both markers in place when neither marker's first character comes before it |
| JsStrings.Trim | main.js:148 | `trim`: the middle of the input between leading and trailing JavaScript white space; empty exactly when the input is all white space |
| JsStrings.TrimIdempotent | main.js:148 | trimming twice is trimming once |
| JsStrings.ToLower | main.js:66 | `toLowerCase` on ASCII: same length, A..Z shifted to a..z, every other character kept |
| JsStrings.FirstField | main.js:68 | `split(sep)[0]`: the longest prefix without `sep` |
| Formatting.Pad | main.js:20 | at least two characters; for 0..99, exactly two digits whose value is the number; longer decimals are unchanged |
| Formatting.PadTwoDigits | main.js:20 | for 0..99 the text is the tens digit followed by the units digit |
| Formatting.FormatOffset | main.js:40-43 | '+' before a non-negative offset and '-' before a negative one, then the canonical decimal of the magnitude |
| Formatting.ParseOffsetOfFormatOffset | main.js:40-43 | every formatted offset reads back as the offset |
| Formatting.FormatOffsetOfParseOffset | main.js:40-43 | every signed canonical decimal except "-0" is the formatted form of its value, so `formatOffset` is a bijection onto those texts |
| Formatting.HoursOf | main.js:143 | `getHours()` lies in 0..23 |
| Formatting.MinutesOf | main.js:140 | `getMinutes()` lies in 0..59 |
| Formatting.SecondsOf | main.js:140 | `getSeconds()` lies in 0..59 |
| Formatting.SecondsIgnoreWholeMinutes | main.js:138-140 | shifting by whole minutes keeps the seconds |
| Formatting.MinutesIgnoreWholeHours | main.js:138-140 | shifting by whole hours keeps the minutes |
| Formatting.WallClockOfTarget | main.js:138-140 | the formatted seconds are the selected moment's seconds, whatever the offsets |
| Formatting.TimeCode | main.js:135-140 | six characters: the selected offset's letter, two digits, ':' and two digits. The digits are the minutes of the shifted instant in the device's zone and the moment's seconds |
| Formatting.TimeCodeIgnoresOffset | main.js:138-140 | when the device's offset agrees at both instants, codes for different offsets differ only in their letter, and the minutes are the moment's UTC minutes |
| Formatting.TimeCodeLetterDecodes | main.js:136 | for an offset in range, the code's letter decodes back to the selected offset |
| Formatting.LocalLabel | main.js:143 | five characters `HH:MM` whose fields are the local hours and minutes of the moment |
| Formatting.PrefixMeetingName | main.js:148-149 | the base note is always a suffix. It is the whole note exactly when the name is blank. Otherwise the trimmed name and " — " come before it |
| Formatting.FillNoteTemplate | main.js:145-147 | a template with neither marker is shown unchanged |
| Formatting.FillNoteTemplateInPlace | main.js:145-147 | a template `pre {{time}} mid {{offset}} post` with no '{' before either marker reads `pre`, the label, `mid`, the offset, `post` |
| Formatting.NoteText | main.js:144-149 | the filled template (translated or built-in) is the whole note for a blank name; otherwise the trimmed name and " — " come before it |
| Formatting.LocalLabelHasNoBrace | main.js:143 | the local label never contains '{', so it cannot start a marker |
| Formatting.DeviceOffsetHours | main.js:147 | `-getTimezoneOffset() / 60` for a whole-hour zone: the hours h with h * 60 equal to minus the device offset |
| Formatting.DeviceOffsetMatchesWallClock | main.js:143-147 | the local wall clock behind "HH:MM" is the instant shifted by the note's "UTC±h" |
| Formatting.DefaultNote | main.js:143-149 | without a translated template, the note for any moment and name is "Local time: HH:MM (UTC±h)" behind the meeting-name prefix. HH:MM and h both come from the same device offset |
| Formatting.TranslatedNoteInPlace | main.js:143-149 | a translated template `pre {{time}} mid {{offset}} post` gives `pre` + HH:MM + `mid` + the device's offset + `post`, behind the meeting-name prefix |
| Formatting.LocalBadge | main.js:158-161 | a badge template with neither marker is shown unchanged |
| Formatting.DefaultBadge | main.js:156-161 | without a translated badge, it reads "Local offset: UTC±h → L", with h the device's offset in hours and L its letter |
| Formatting.TranslatedBadgeInPlace | main.js:156-161 | a translated badge `pre {{offset}} mid {{letter}} post` reads `pre` + the device's offset + `mid` + its letter + `post` |
| Formatting.FormatOffsetHasNoBrace | main.js:40-43 | a formatted offset contains no '{', so it never creates a marker |
| Formatting.OffsetDisplay | main.js:152 | the label is `translations.referenceUTC \|\| 'UTC'` followed by the formatted offset, and that suffix reads back as the offset |
| Formatting.RoundToHour | main.js:165 | `Math.round(m / 60)`: the whole hour h with h*60 - 30 <= m < h*60 + 30, so halves round up |
| Formatting.SliderOffset | main.js:165 | the slider offset brings the device offset within [-30, 30) minutes of a whole hour |
| Formatting.SliderOffsetUnique | main.js:165 | no other whole hour does that |
| Formatting.SliderOffsetInRange | main.js:165-167 | the slider lands on a lettered offset exactly for device offsets in [-750, 750) minutes |
| WorkedExamples.TimeCodeAtUtc | main.js:135-140 | at 00:05:09 UTC, offset 0 on a UTC device gives "Z05:09" |
| WorkedExamples.TranslatedNote | main.js:144-147 | the template "At {{time}} ({{offset}})" with 14:30 and +2 gives "At 14:30 (+2)" |
| WorkedExamples.SliderForHalfHourZone | main.js:165 | a device offset of -330 minutes (UTC+5:30) pre-selects +5, letter E |

## Left out

- DOM rendering, `applyTranslations`, `renderList` and the grid's HTML are not modelled. Only the texts and the order they show are.
- `loadLocale`'s `fetch`, JSON parsing and its `catch` (which resets the translations to `{}`) are not modelled. The parsed file is a parameter.
- `initCopy` (the clipboard and its fallback), `bindEvents` and `init` are left out: they are browser I/O and event wiring.
- `getSelectedDate` (date and time input parsing) and clock reads are left out. The selected instant and the device's `getTimezoneOffset()` values are parameters.
- Locale.DetectLocale: `available[key]` is taken as key presence. A present but falsy entry would count as absent in JavaScript, and locale dictionaries are objects, so they are never falsy.
- Locale.ActiveTranslations: when it gives none (`undefined`), the later property reads would throw. The model does not follow that failure into the texts.
- Translation dictionaries keep only their string-valued entries. List-valued entries such as the "how it works" items feed DOM code only.
- Formatting.DeviceOffsetHours: only zones a whole number of hours from UTC are covered. A half-hour zone makes `-getTimezoneOffset() / 60` a fraction, which `String` prints with a decimal point. The note and badge lemmas (DefaultNote, TranslatedNoteInPlace, DefaultBadge, TranslatedBadgeInPlace) require such a zone for the same reason.
- JsStrings.IntToString: numbers are modelled as unbounded integers, not as doubles. `String(n)` switches to exponent form from 1e21 on, so the model agrees with it only below that. The values main.js formats (hours, minutes, seconds, offsets) are small.
- Formatting.TimeCode: instants are assumed to lie in the range a `Date` accepts, at most 8.64e15 ms from the epoch. Outside it a `Date` is invalid and its fields read NaN, which the model does not represent.
- Formatting.TimeCode: `Number(offsetInput.value)` is taken as an integer. The slider only yields integers.
- JsStrings.ReplaceFirst: the `$` patterns that `replace` expands in its replacement string are not modelled. The inserted texts (a time label, an offset, a letter) contain no '$'.
- JsStrings.ToLower: only ASCII letters are lower-cased. Full Unicode case mapping is outside the model.
- Letters.SortByOffsetDescending: the engine's sort algorithm is not visible. An insertion sort stands in, and its contract (sorted by the comparator, a permutation) is what any correct sort gives.
