# AttractionsParty generator, modelled in Dafny

A model of `lib/generator.js`, the batch transform of the AttractionsParty tool. It turns a table of party bookings into two kinds of output:

- **Party sheets.** For each party date, a copy of the party-sheet template is filled with that day's bookings. Each booking goes into the template row of its start time. It writes the party type, the booker, the child, the attendee count, the location and a notes cell. A Tag X party also gets catering quantities.
- **Name signs.** For the Tag X and Stompers parties, the children's first names are collected without repeats. They are laid out four to a page (Tag X) or two to a page (Stompers) by substituting the `NAME k` placeholders of a Word template.

One Dafny module per part of the generator:

| module | file | models |
|---|---|---|
| `Options`, `Strings`, `Seqs` | options.dfy, strings.dfy, seqs.dfy | The JavaScript string built-ins the generator relies on: `trim`, ASCII `toLowerCase`/`toUpperCase`, `includes`, `split`/`join` (over a substring search written for the purpose), the `(\d+)` match, `parseInt`, `String(n)`. Also the push-unless-included idiom (`Dedup`). |
| `Values` | values.dfy | Loosely typed cell values (`null`/`undefined`, text, integer, date), JavaScript truthiness, `v \|\| fallback` and `String(v)`. |
| `Party` | party.dfy | `partyKind`, the attendee count read from the party type, and `pizzaSplit`. |
| `Minutes` | minutes.dfy | `canonicalMinutes`. |
| `Names` | names.dfy | `extractFirstName`. |
| `Info` | info.dfy | `buildAdditionalInfo`, as a method pushing onto `parts`. |
| `Grouping` | grouping.dfy | `groupByDate`, as a method filling the map in a loop. |
| `Placeholders` | placeholders.dfy | The replacement loop of `replaceDocxPlaceholders`, as a method. |
| `Sheets` | sheets.dfy | The grid-writing part of `generatePartySheets`. A `Worksheet` class holds the cell grid its methods update. |
| `Signs` | signs.dfy | `generateSigns`: the name-collecting loop and the two page loops. |

Every method is proved equal to a specification function. The properties are then proved about those functions.

In a few places the code does something other than a reader might expect. The model follows the code:

- **Hyphens never survive in names.** `extractFirstName` cuts the text at the first `-` (lib/generator.js:53). So "O'Brien-Smith" gives "O'brien" on a Tag X sign and "O'BRIEN" on a Stompers sign (`Names.HyphenatedExample`). One might expect "O'Brien-Smith" to be kept whole.
- **Twelve attendees.** A Tag X party of 12 falls into the second tier (lib/generator.js:18). Its quantities are 3, 3, 5 and 12 (`Party.PizzaSplitBoundaries`). One might expect 4, 3, 8 and 12 for such a party.
- **No names means the template unchanged.** An empty name list still gives one page, but that page is the template as it is, with no substitution done (lib/generator.js:184, 192). One might expect a page with all slots blank. `Signs.NoNamesOnePage` states the code's behaviour. The placeholders are left in that page's text.
- **Replacement can recreate a placeholder.** Replacing every occurrence of a key does not guarantee that no occurrence remains. For example, `"NAME NAME 11".split("NAME 1").join("")` is `"NAME 1"` (`Placeholders.ReplacementCanRecreateKey`). So mapping every placeholder to `""` need not give the template "without its placeholders". The model proves what does hold:
  - a template without the placeholders is left as it is;
  - mapping keys to themselves changes nothing;
  - a one-character key whose value lacks it disappears.
- **No bound on minutes.** `canonicalMinutes` does not range-check its result: "1430" reads as hour 1430, which is 85800 minutes (`Minutes.MinutesUnbounded`). A bare ":" is read as two empty pieces, each parsed as `"0"`, so it gives 0 rather than null. `Minutes.ClockTextMinutes` covers this with both digit strings empty. Nor is the sign kept: the number -5 becomes the text "-5", whose `-` is removed with the other characters that are neither digits nor colons, so it reads as hour 5, 300 minutes (`Minutes.NumberMinutes`).

## Model

| member | source | states |
|---|---|---|
| Party.PartyKind | lib/generator.js:6-12 | The category is Stomp exactly when the value is truthy and its lower-case text contains "stomp". It is TagX exactly when the value is truthy, the text lacks "stomp", and it contains "tag x" or "tagx". Otherwise there is no category. |
| Party.PartyKindIgnoresCase | lib/generator.js:8-10 | Upper- or lower-casing the text does not change the category. |
| Party.StompTakesPriority | lib/generator.js:9-10 | Text that mentions "stomp" in any case is Stomp, whatever surrounds it, even when it also mentions Tag X. |
| Party.PartyKindExamples | lib/generator.js:7-11 | "Stomp Party" and "STOMP and Tag X" are Stomp. "", 0 and null have no category. |
| Party.TagXExample | lib/generator.js:10 | "TagX Party - 18 children" is TagX. |
| Party.TagXSpacedExample | lib/generator.js:10 | "Tag X Arena" is TagX. |
| Party.UnknownExample | lib/generator.js:11 | "Bowling" has no category. |
| Party.AttendeeCount | lib/generator.js:139-140 | There is no count exactly when the text of `ptype \|\| ""` holds no digit. |
| Party.AttendeeCountOfNumber | lib/generator.js:139-140 | A positive number n as party type gives n attendees. |
| Party.AttendeeCountReadsFirstNumber | lib/generator.js:139-140 | The count is the first run of digits read in decimal, whatever digit-free text precedes it and whatever non-digit follows it. |
| Party.NoAttendeeCountExamples | lib/generator.js:139-140 | "Stomp Party" and null give no count. |
| Party.PizzaSplit | lib/generator.js:14-23 | There are quantities exactly when the count is present and non-zero. Cans always equal the count. Margherita is 3–5, pepperoni 2–5, chips 4–10. |
| Party.PizzaSplitFollowsTable | lib/generator.js:17-22 | The quantities are those of the first tier, in the order 10, 15, 20, 25, whose inclusive bound is at least the count; larger counts get the top tier. |
| Party.PizzaSplitMonotone | lib/generator.js:17-22 | No quantity decreases as the count grows. |
| Party.PizzaSplitBoundaries | lib/generator.js:15-22 | The quantities are: 10 gives (3,2,4); 11 and 12 give (3,3,5); 20 gives (4,3,8); 25 gives (4,4,9); 26 gives (5,5,10). In each case cans equal the count. 0 or no count gives nothing. |
| Minutes.CanonicalMinutesSpec | lib/generator.js:25-48 | A date gives hours·60 + minutes, which is below 1440. The result is null exactly when the value is null, or is not a date and its text has no digit, colon or period. |
| Minutes.MinutesOfText | lib/generator.js:28-47 | On a non-date value's text, the reading is null exactly when the text has no digit, colon or period. |
| Minutes.MinutesOfNormalised | lib/generator.js:31-47 | On normalised text, the reading is null exactly when no digit or colon is left once markers are removed. |
| Minutes.CanonicalMinutesOfStr | lib/generator.js:28-47 | A text cell is read through its text alone. |
| Minutes.RemoveMarkersThenFilter | lib/generator.js:33-34 | Removing "am"/"pm" before keeping digits and colons makes no difference to the digits and colons kept. |
| Minutes.TimeCharsSurvive | lib/generator.js:28-34 | The text has a digit, colon or period exactly when its trimmed, lower-cased, period-to-colon form has a digit or colon. |
| Minutes.NoDigitsNoMinutes | lib/generator.js:28-35 | The numeric part is empty exactly when the original text holds no digit, colon or period. |
| Minutes.ClockTextNormalised | lib/generator.js:28-30 | Text of digits, colons, periods and lower-case letters is unchanged by trimming and lower-casing. |
| Minutes.MarkerFlags | lib/generator.js:31-32 | Digits and colons followed by a marker include "am" exactly for the am marker and "pm" exactly for the pm marker. |
| Minutes.MarkerFiltered | lib/generator.js:33-34 | The numeric part of digits and colons followed by a marker is the digits and colons. |
| Minutes.NumericPartIsClockText | lib/generator.js:34 | The numeric part holds only digits and colons. |
| Minutes.ClockOfColonText | lib/generator.js:37-40 | "a:b" reads as hour `parseInt(a \|\| "0")` and minute `parseInt(b \|\| "0")`. |
| Minutes.DigitsClock | lib/generator.js:41-43 | Digits without a colon are the hour, with minute 0. |
| Minutes.NormalFormReading | lib/generator.js:36-47 | A clock reading followed by at most one marker gives the adjusted hour·60 + minute. |
| Minutes.ClockTextMinutes | lib/generator.js:25-47 | "H:MM" or "H.MM", optionally followed by "am" or "pm", gives the hour adjusted for the marker, times 60, plus the minutes. |
| Minutes.HourTextMinutes | lib/generator.js:41-47 | "H", "Ham" or "Hpm" gives the adjusted hour times 60. |
| Minutes.HalfPastTwo | lib/generator.js:25-47 | "2:30pm", "2.30pm", "14:30" and "14.30" all give 870. |
| Minutes.TwoPm | lib/generator.js:45 | "2pm" gives 840. |
| Minutes.TwelveAm | lib/generator.js:46 | "12am" gives 0. |
| Minutes.TwelvePm | lib/generator.js:45-46 | "12pm" gives 720: pm adds nothing at hour 12. |
| Minutes.NumberMinutes | lib/generator.js:28-47 | A numeric cell n reads as the hour given by the absolute value of n, with no minutes: the minus sign of a negative number is removed with the other characters that are neither digits nor colons. |
| Minutes.MinutesUnbounded | lib/generator.js:42-47 | "1430" and the number 1430 both give 85800: there is no range check. |
| Minutes.NoMinutesExamples | lib/generator.js:26-35 | Null, "", "  " and "pm" give null. |
| Names.ExtractFirstName | lib/generator.js:50-59 | There is no name exactly when the value is falsy, or no letter, apostrophe or hyphen is left in the first word of the cut and trimmed text. |
| Names.NameOfText | lib/generator.js:52-59 | On `String(val)`, there is no name exactly when the cleaned first word is empty. |
| Names.NameFrom | lib/generator.js:54-58 | On the cut text, there is no name exactly when its first token has no letter, apostrophe or hyphen. |
| Names.Before | lib/generator.js:53 | The text before the first `c` is a prefix without `c`. Unless it is the whole text, `c` follows it. |
| Names.BeforeIsSplitHead | lib/generator.js:53 | That prefix is `s.split(c)[0]`. |
| Names.WordIsClean | lib/generator.js:53-56 | A non-empty cleaned word holds only letters and apostrophes. No hyphen survives the cut. |
| Names.CasedShape | lib/generator.js:58 | Casing keeps a clean word clean and its length the same. Upper mode leaves no lower-case letter. Title mode gives a first letter that is not lower-case and leaves no upper-case letter after it. |
| Names.ExtractedShape | lib/generator.js:50-59 | Every name extracted is clean: non-empty, with only letters and apostrophes. It is all capitals in upper mode, and title case otherwise. |
| Names.UpperOfTitle | lib/generator.js:58 | Both modes find a name for the same values, and the upper-mode name is the title-mode name in capitals. |
| Names.CleanNameExtracts | lib/generator.js:50-59 | A clean word on its own gives itself, cased. |
| Names.FirstWordOnly | lib/generator.js:55 | Only the first whitespace-separated word counts. |
| Names.CasedTwice | lib/generator.js:58 | Casing twice is casing once. |
| Names.ExtractIdempotent | lib/generator.js:50-59 | Extracting again from an extracted name gives the same name. |
| Names.CandidateCut | lib/generator.js:52-53 | Text is cut at its first `(` or `-`, and the part before is trimmed, whatever that part is (blank text before the mark gives ""). |
| Names.CutAtMark | lib/generator.js:53 | Whatever follows the first `(` or `-` does not affect the name, whatever text comes before it. |
| Names.HyphenCutsName | lib/generator.js:53 | A clean word followed by a hyphen gives the word alone, cased. |
| Names.HyphenatedExample | lib/generator.js:53-58 | "O'Brien-Smith" gives "O'brien" in title mode and "O'BRIEN" in upper mode. |
| Names.AmeliaExample | lib/generator.js:50-59 | "Amelia (age 6)" gives "Amelia" in title mode and "AMELIA" in upper mode. |
| Names.LeadingMarkNoName | lib/generator.js:53-54 | Text starting with `(` or `-`, such as "(x)", gives no name. |
| Names.FalsyNames | lib/generator.js:51 | Null, "" and 0 give no name. |
| Info.BuildAdditionalInfo | lib/generator.js:61-72 | The method returns the labelled, filled fields (Food, Notes, Tel, Email, in that order) joined by " \| ". |
| Info.InfoPartsOfTable | lib/generator.js:63-70 | The parts are the four fields' contributions in the fixed order. |
| Info.PartsNonEmpty | lib/generator.js:67-70 | No part is empty, since each starts with its label. |
| Info.JoinEmpty | lib/generator.js:71 | Joining non-empty parts gives "" only for no parts. |
| Info.AdditionalInfoEmpty | lib/generator.js:61-72 | The notes cell is "" exactly when all four fields are falsy or blank once trimmed. |
| Info.AllFilledOrder | lib/generator.js:67-71 | With all four filled, the cell is "Food: … \| Notes: … \| Tel: … \| Email: …", each value trimmed. |
| Info.OnlyTelephone | lib/generator.js:69-71 | With only the telephone filled, the cell is "Tel: " plus the trimmed number. |
| Grouping.DayOf | lib/generator.js:77-81 | A falsy date gives no day. A date object gives its calendar day. |
| Grouping.DayKeys | lib/generator.js:82 | The keys hold no repeats. |
| Grouping.GroupByDate | lib/generator.js:74-86 | The keys are the distinct days in order of first appearance. Each key's group is exactly the rows of that day, in input order. The map has no other key. |
| Grouping.SkipRow | lib/generator.js:78-80 | A row without a valid day leaves the groups as they are. |
| Grouping.PushRow | lib/generator.js:81-83 | A row with a day is appended to its day's group. A new key is appended on the day's first row. |
| Grouping.RowsOnDay | lib/generator.js:83 | Every row of a group has that group's day. |
| Grouping.RowsOnAppend | lib/generator.js:76-84 | Grouping the concatenation of two tables gives the concatenated groups. |
| Grouping.DroppedRow | lib/generator.js:78-80 | A row without a day changes neither the keys nor any group. |
| Grouping.AddedRow | lib/generator.js:81-83 | A row with day d is appended to group d only, and to the sequence of days. |
| Grouping.KeysAreOccupiedDays | lib/generator.js:82-83 | A day is a key exactly when its group is non-empty. |
| Grouping.KeysInFirstAppearanceOrder | lib/generator.js:82 | Earlier keys first appear earlier among the rows' days. |
| Grouping.GroupsPartitionRows | lib/generator.js:74-86 | Together, the groups hold each row that has a day exactly as often as the input does, and nothing else (multiset equality). |
| Placeholders.ReplacePlaceholders | lib/generator.js:92-95 | The loop's result is every entry applied in turn, as `split(k).join(v)`. |
| Placeholders.SubstitutedWithoutKeys | lib/generator.js:93-94 | If no key occurs in the text, the text is unchanged, whatever the values. |
| Placeholders.SubstitutedIdentity | lib/generator.js:94 | Mapping every key to itself leaves the text unchanged. |
| Placeholders.ReplaceFirst | lib/generator.js:94 | `split(k).join(v)` replaces the first occurrence by `v` and continues after it. |
| Placeholders.ReplaceAround | lib/generator.js:94 | In `a + k + b`, where `k` is not found earlier, `k` becomes `v` and `b` is processed on its own. |
| Placeholders.ReplaceCharRemoves | lib/generator.js:94 | A one-character key whose value lacks it leaves no occurrence. |
| Placeholders.ReplacementCanRecreateKey | lib/generator.js:94 | "NAME NAME 11" with "NAME 1" replaced by "" gives "NAME 1": a value free of its key does not remove the key. |
| Strings.SplitJoin | lib/generator.js:94 | Joining the pieces of a split with the same separator gives back the text. |
| Strings.SplitPieces | lib/generator.js:94 | No piece of a split contains the separator. |
| Strings.FirstDigitRun | lib/generator.js:139 | The match of `(\d+)` is absent exactly when there is no digit. Otherwise it is a non-empty maximal run of digits with no digit before it. |
| Seqs.Dedup | lib/generator.js:172 | Pushing unless already included leaves no repeats and the same elements as the input. |
| Seqs.DedupMembers | lib/generator.js:172-175 | An element is on the pushed-unless-included list exactly when it occurs in the input. |
| Seqs.DedupFirstAppearanceOrder | lib/generator.js:172-175 | The listed elements are in the order of their first occurrences. |
| Sheets.Worksheet.constructor | lib/generator.js:121-123 | A fresh worksheet holds the template's cells. |
| Sheets.Worksheet.SetCell | lib/generator.js:134-150 | Setting a cell changes that cell only. |
| Sheets.BuildSlotIndex | lib/generator.js:107-111 | The loop's index is the slot index of template rows 4 to 13, column 4. |
| Sheets.SlotsThroughSpec | lib/generator.js:108-110 | Minutes m are indexed exactly when some scanned row reads as m. The indexed row is in range, reads as m, and no later scanned row reads as m. |
| Sheets.SlotIndexSpec | lib/generator.js:107-111 | The same for rows 4 to 13: the later row wins on equal minutes. |
| Sheets.SlotRowInRange | lib/generator.js:108-110 | A matched booking's row is between 4 and 13, so `!tr` never skips it. |
| Sheets.ResolveKey | lib/generator.js:114-115 | The first name whose column in the first row is neither null nor undefined wins. With none, the fallback is used. |
| Sheets.KeyFallbacks | lib/generator.js:113-115 | The date column is "Date of Party", else "Party Date", else "Date". The time column is "Party Start Time", else "Party Time", else "Time". |
| Sheets.DetailValue | lib/generator.js:134-143 | A detail is written exactly in columns 16, 2, 5, 6, 7 and 8. |
| Sheets.CateringValue | lib/generator.js:147-150 | A quantity is written exactly in columns 9 to 12. |
| Sheets.Written | lib/generator.js:134-151 | A matched booking writes exactly columns 16, 2, 5, 6, 7 and 8, plus columns 9–12 when it caters. |
| Sheets.DetailsCell | lib/generator.js:134-143 | After the detail writes, each cell holds its detail or its old value. |
| Sheets.CateringCell | lib/generator.js:147-150 | After the catering writes, each cell holds its quantity or its old value. |
| Sheets.BookedCell | lib/generator.js:125-152 | After a booking, each cell holds what the booking writes there, or its old value. |
| Sheets.UnmatchedBooking | lib/generator.js:126-129 | A booking with a null or unindexed time changes no cell. |
| Sheets.BookingFootprint | lib/generator.js:134-151 | A booking changes no cell outside its slot row and its written columns. |
| Sheets.CateringCells | lib/generator.js:139-151 | Column 7 holds the count, or "" when there is none or it is 0. A Tag X booking with a non-zero count gets `pizzaSplit` in columns 9–12, with cans equal to the count. Any other booking writes nothing there. |
| Sheets.FilledSheetCell | lib/generator.js:125-152 | Last write wins: each cell holds the value of the last booking of the day that wrote it, or the template's value. |
| Sheets.WriteDetailCells | lib/generator.js:134-143 | The six detail cells of the slot row are written, and nothing else. |
| Sheets.WriteCateringCells | lib/generator.js:147-150 | The four catering cells of the slot row are written, and nothing else. |
| Sheets.WriteBooking | lib/generator.js:126-151 | The cell writes of one booking give the booking's intended grid. |
| Sheets.FillSheet | lib/generator.js:125-152 | The day's bookings are written in input order. |
| Sheets.Sheets | lib/generator.js:120-156 | One sheet per day. |
| Sheets.PartySheets | lib/generator.js:117-158 | One sheet per distinct date. |
| Sheets.SheetsAt | lib/generator.js:120-156 | The i-th sheet is the i-th day's template copy, filled with that day's rows. |
| Sheets.BuildDaySheet | lib/generator.js:121-155 | A fresh copy of the template is filled with the day's rows and named after the day. |
| Sheets.GeneratePartySheets | lib/generator.js:100-159 | The outputs are the day sheets of the distinct dates, in key order. |
| Sheets.SheetNameInjective | lib/generator.js:155 | Different days give different file names. |
| Sheets.SheetNamesDistinct | lib/generator.js:120-156 | No two party sheets share a file name. |
| Signs.YieldedMembers | lib/generator.js:168-177 | A name is collected exactly when some row yields it. |
| Signs.CollectStep | lib/generator.js:170-176 | A row's name, if any, is non-empty, so `n &&` only rules out null. It is appended unless the list already holds it. |
| Signs.CollectRow | lib/generator.js:169-176 | The party kind of one booking decides which list its first name is pushed onto: each list gains that booking's name for its kind only if the name is not already there. |
| Signs.CollectNames | lib/generator.js:165-177 | The loop builds, for each kind, the deduplicated names of that kind's bookings. |
| Signs.SignNamesMembers | lib/generator.js:168-177 | A list holds no repeats. A name is on it exactly when some booking of that kind yields it. |
| Signs.SignNamesOrder | lib/generator.js:172-175 | The names stay in the order in which they first turn up. |
| Signs.SignNamesShape | lib/generator.js:171-174 | Every listed name is clean. Stompers names are in capitals; Tag X names are title case. |
| Signs.PageMapping | lib/generator.js:183 | A page's mapping has one entry per placeholder. |
| Signs.PageStep | lib/generator.js:181 | The page loop runs again exactly while pages made · cap < max(1, n). |
| Signs.BuildPages | lib/generator.js:181-194 | The loop yields the list's pages, numbered from 1. Each page is the template with its chunk's mapping substituted, or the template itself for an empty list. |
| Signs.GenerateSigns | lib/generator.js:161-197 | The outputs are the Tag X pages (four slots) and the Stompers pages (two slots) of the collected names. |
| Signs.NoNamesOnePage | lib/generator.js:181-185 | An empty list gives exactly one file, "…_1.docx", holding the untouched template. |
| Signs.PageCountBounds | lib/generator.js:181 | With names, the page count is ⌈n/cap⌉: every name has a page and the last page is not empty. |
| Signs.PagesAt | lib/generator.js:181-186 | Page p is file p + 1, filled from name cap·p on. |
| Signs.PageSlot | lib/generator.js:182-183 | Slot j of the page starting at name i holds name i + j, or "" past the end of the list. |
| Signs.PageContents | lib/generator.js:182-185 | For a non-empty list, page p is the template with its mapping applied, under file number p + 1. |
| Signs.NamePlaced | lib/generator.js:181-183 | Name k sits in slot k mod cap of page ⌊k/cap⌋, and that page exists. |
| Signs.FileNameInjective | lib/generator.js:185 | Different page numbers give different file names. |
| Signs.FileNamesDistinct | lib/generator.js:185 | No two pages of a list share a file name. |
| Signs.FiveTagNames | lib/generator.js:181-183 | Five Tag X names make two pages: four names, then one name and three blank slots. |
| Signs.ThreeStompersNames | lib/generator.js:189-191 | Three Stompers names make two pages. The second holds "CARA" and a blank slot. |

## Left out

- File and library I/O: `fs.readFileSync`, `path.join`, ExcelJS `readFile` and `writeBuffer`, and JSZip `loadAsync` and `generateAsync`.
  - A template is given as its cell grid (party sheets) or as the text of its `word/document.xml` (signs).
  - Outputs are file names with grids or texts, not byte buffers.
  - The promise that a docx's other entries stay byte-identical is not modelled.
- `async`/`await`: the model is sequential, which is the order the code runs in.
- JavaScript `Date`: `new Date(d)`, `getTime`, `toISOString` in UTC and local `getHours`/`getMinutes`.
  - A date cell carries its day and its hour and minute.
  - Parsing a text or number into a day is a `DateParser` parameter (`Grouping.DayOf`).
- Numbers are integers. `String(x)` of a non-integer, floating-point parsing and `parseInt` precision limits on very long digit runs are left out (digits parse to unbounded naturals).
- Letter case is ASCII only: `toLowerCase`/`toUpperCase` of non-ASCII letters is not modelled.
- The Map of `groupByDate` becomes its key order plus a map. Its iteration order is the key order the model proves.
- `Sheets.SetCell` writes a whole cell value. Cell styles and formulas of the template are outside the grid model.
- `Signs.SignNamesOrder` states first-appearance order by position among the extracted names, not by row index.
- pages/api/generate.js (upload handling, password check, spreadsheet reading, zip streaming) and pages/index.js (the user interface) are not part of this model.
