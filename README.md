# Rapporte: a verified model of its string and record logic

Rapporte is a small Flask application for logging IT support time entries ("Rapporte")
against clients ("Kunden"). It keeps them in SQLite and exports them as CSV and PDF.
The logic that can be stated and proved is the string and record handling around the
entries and the clients. This project models that logic in Dafny and proves what it
promises:

- **AddressParser** models `parse_adresse` from the address migration. It cuts a
  free-text Swiss address into non-blank stripped lines. It then reads a street and a
  house number from the first line, and a four-digit postal code and a city from the
  last line. Both regular expressions are modelled by hand over character positions.
  The street regex follows the engine's lazy `(.+?)` search, which tries the shortest
  street first.
- **Migration** models the two decisions of `migrate_addresses`:
  - which of the four address columns get added;
  - which clients get their parsed fields written back.
  Both are methods with loops over in-memory lists.
- **DateFormat** models `format_date_ch`, which turns `YYYY-MM-DD...` into `DD.MM.YYYY`.
- **ReportFilter** models the filter-query builder that the overview, the CSV export
  and the PDF export share. It grows a query text and a parameter list step by step.
  The module also models the filter line at the top of the PDF.
- **ReportRows** models two things:
  - the listing loop that copies each row into a dictionary and rewrites only its
    `datum` value;
  - the PDF's topic truncation.
  Cells and rows model what `sqlite3` returns. `r[key]` reads the first column of that
  name. The dictionary update keeps a key's position, and a new key is added at the end.
- **Cost** models the cost a new or edited time entry is saved with. A submitted cost
  is kept as it is. Otherwise the cost is the duration times the client's hourly rate,
  falling back to 120.0, and the handler's exceptions are modelled as error values.
- **Text** holds the Python string behaviour these rely on: `strip`, `split('\n')`,
  `str.count`, `int()` on text and `str()` of an integer. **Wrappers** holds `Option`
  and `Result`.

Python's `None` is `Option.None`, and unbounded `int` stands for Python's integers.
Float arithmetic is modelled as `real`. Rounding to two decimals is a parameter of the
cost function.

## Model

| member | source | states |
|---|---|---|
| AddressParser.MatchStreet | migrate_adressen.py:24 | a match of the street pattern splits the line into a street of at least one character, whitespace and a house number that ends the line, and no shorter street would have matched |
| AddressParser.FindStreetSplit | migrate_adressen.py:24 | the lazy search returns the least split position from which whitespace and a house number reach the end of the line, or none when no position works |
| AddressParser.MatchPostal | migrate_adressen.py:34 | the postal pattern matches exactly when the line has four digits, whitespace and at least one more character; the groups are the four digits and the rest after the greedy whitespace |
| AddressParser.NonBlank | migrate_adressen.py:14 | the kept lines are no more than the pieces, and each is non-empty, stripped and free of line feeds; which pieces are kept, and in what order, is stated by NonBlankOne and NonBlankAppend |
| AddressParser.Lines | migrate_adressen.py:14 | every line of the address is non-empty, stripped and free of line feeds; LinesOfPieces states which lines these are |
| AddressParser.ParseAdresse | migrate_adressen.py:9-12 | `None` and the empty text give all four fields `None` |
| AddressParser.StreetAndNumber | migrate_adressen.py:22-27 | a street, whitespace and a house number are taken apart again into the stripped street and that number |
| AddressParser.SplitFound | migrate_adressen.py:24 | the street ends before the first whitespace after which only whitespace and a house number follow |
| AddressParser.FirstLineShape | migrate_adressen.py:22-29 | on a stripped line, either there is no house number and the street is the whole line (no split matches), or the line is a non-empty stripped street, whitespace and a house number |
| AddressParser.FirstLine | migrate_adressen.py:22-29 | without a house number the street is the whole line; a house number found has the house-number shape (more in FirstLineShape and StreetAndNumber) |
| AddressParser.FirstLineMatched | migrate_adressen.py:25-27 | on a match, street and house number are the two groups, which stripping leaves unchanged |
| AddressParser.MatchedNumber | migrate_adressen.py:27 | group 2 has the house-number form and stripping it changes nothing |
| AddressParser.MatchedStreetStripped | migrate_adressen.py:26 | the lazy group 1 never ends in whitespace on a stripped line |
| AddressParser.PostalAndCity | migrate_adressen.py:32-37 | four digits, whitespace and a city are taken apart again into the postal code and the stripped city |
| AddressParser.LastLineShape | migrate_adressen.py:32-37 | on a stripped line a postal code is found exactly when the line starts with four digits and whitespace and goes on; then the postal code is those digits and the city is the non-empty stripped rest |
| AddressParser.LastLine | migrate_adressen.py:32-37 | postal code and city are found together, and a postal code is four digits (more in LastLineShape and PostalAndCity) |
| AddressParser.PostalFound | migrate_adressen.py:34-37 | the two groups of a postal match on a stripped line are four digits and a non-empty stripped suffix |
| AddressParser.NoHouseNumber | migrate_adressen.py:24-29 | a line without a digit among its last two characters has no house number, so all of it is the street |
| AddressParser.NonBlankKeeps | migrate_adressen.py:14 | lines that are already non-blank and stripped are all kept, unchanged |
| AddressParser.NonBlankOne | migrate_adressen.py:14 | one piece is kept, stripped, exactly when it is not blank, and dropped otherwise |
| AddressParser.NonBlankAppend | migrate_adressen.py:14 | the filter goes piece by piece: the lines of two runs of pieces are the lines of the first followed by the lines of the second |
| AddressParser.LinesOfPieces | migrate_adressen.py:14 | the outer `strip()` changes nothing: the lines of a text are the non-blank pieces of its own `split('\n')`, stripped and in order |
| AddressParser.LinesOfJoinedPieces | migrate_adressen.py:14 | any pieces joined by line feeds, blank or padded ones included, give their non-blank pieces, stripped and in order |
| AddressParser.LeadingSpaceIgnored | migrate_adressen.py:14 | the outer `lstrip()` does not change which stripped non-blank pieces there are |
| AddressParser.TrailingSpaceIgnored | migrate_adressen.py:14 | the outer `rstrip()` does not change which stripped non-blank pieces there are |
| AddressParser.KeptHead | migrate_adressen.py:14 | a first piece that is not blank becomes the first line, stripped |
| AddressParser.DroppedHead | migrate_adressen.py:14 | a blank first piece is dropped |
| AddressParser.SameHead | migrate_adressen.py:14 | pieces that differ only in a first piece that strips alike give the same lines |
| AddressParser.SameLast | migrate_adressen.py:14 | pieces that differ only in a last piece that strips alike give the same lines |
| AddressParser.BlankMiddleDropped | migrate_adressen.py:14 | a blank piece between two non-blank pieces is dropped, and the two are stripped |
| AddressParser.LinesWithBlankMiddle | migrate_adressen.py:14 | a street line, a blank or whitespace-only line and a town line, each possibly padded, give exactly the two stripped lines |
| AddressParser.LinesOfJoin | migrate_adressen.py:14 | non-blank stripped lines joined by line feeds are cut back into the same lines |
| AddressParser.LinesOfOneLine | migrate_adressen.py:14 | a text without a line feed that is not blank gives the one stripped line |
| AddressParser.BlankAddress | migrate_adressen.py:11-29 | all four fields are `None` exactly when the text is blank, and a street is found exactly when it is not |
| AddressParser.OneLineAddress | migrate_adressen.py:22-37 | a one-line address gives no postal code and no city |
| AddressParser.ParseAdresseShape | migrate_adressen.py:9-39 | every result is well-shaped: street non-empty and stripped, a house number only with a street, postal code and city only together, four digits and a non-empty stripped city |
| AddressParser.ParseLinesShape | migrate_adressen.py:16-39 | the four fields of clean lines are well-shaped |
| AddressParser.ParseLines | migrate_adressen.py:16-39 | a street is set exactly when there is a line; a single line gives no postal code and no city |
| AddressParser.MiddleLinesIgnored | migrate_adressen.py:14-37 | any two texts of at least two non-blank lines that agree on the first and the last line parse the same, whatever lies between |
| AddressParser.ParsedByEnds | migrate_adressen.py:14-37 | a text of at least two non-blank lines parses as what its first and its last line give |
| AddressParser.ParsedAsLines | migrate_adressen.py:10-16 | a text with a non-blank line is parsed from its non-blank lines |
| AddressParser.LinesOfEmpty | migrate_adressen.py:14 | the empty text has no lines |
| AddressParser.LinesEnds | migrate_adressen.py:16-39 | two or more lines give the fields of the first line and of the last line |
| AddressParser.ParseJoined | migrate_adressen.py:14-39 | clean lines joined by line feeds parse as those lines |
| AddressParser.ParseFramed | migrate_adressen.py:22-37 | the result is what the first line and the last line give |
| AddressParser.ParseWrittenAddress | migrate_adressen.py:9-39 | round trip: `street number`, any middle lines and `plz city` parse back into exactly those four fields |
| AddressParser.StreetLineClean | migrate_adressen.py:14 | `street number` is a clean line |
| AddressParser.WrittenLinesClean | migrate_adressen.py:14 | the written address consists of clean lines |
| AddressParser.ParseTwoLineAddress | migrate_adressen.py:9-39 | "Bahnhofstrasse 10" over "8001 Zürich" gives all four fields |
| AddressParser.ParseCommaAddress | insert_test_data.py:13 | the seeded one-line, comma-separated address becomes the street, and nothing is set besides |
| AddressParser.ParseStreetOnly | migrate_adressen.py:22-32 | a one-line address with no digit among its last two characters is all street, with no house number, postal code or city |
| AddressParser.FirstLineWritten | migrate_adressen.py:22-27 | the first line `street number` gives that street and that number |
| AddressParser.ParseStreetLine | migrate_adressen.py:22-37 | the one line `street number` gives street and number, and no postal code or city |
| AddressParser.ParseMainStreet | migrate_adressen.py:22-27 | "Main Street 12" gives ("Main Street", "12") |
| AddressParser.ParseNumberOnly | migrate_adressen.py:22-29 | a house number alone becomes the street, with no house number |
| AddressParser.NumberNotSplit | migrate_adressen.py:22-29 | a house number holds no whitespace, so the first-line pattern finds no street before it and the whole line is the street |
| AddressParser.ParseWithoutPostalCode | migrate_adressen.py:32-37 | a last line that does not start with four digits and whitespace sets neither postal code nor city |
| AddressParser.ParseStreetWithoutPostalCode | migrate_adressen.py:22-37 | street and number are found on the first line when the second line is not a postal line |
| AddressParser.ParseTwoLines | migrate_adressen.py:14-37 | a two-line address gives street and number from the first line and postal code and city from the second |
| AddressParser.ParseFiveDigitPostalCode | migrate_adressen.py:34 | five leading digits are no postal code |
| AddressParser.HouseNumberAtSlice | migrate_adressen.py:24 | the house-number pattern at a position matches exactly when the rest of the line is a house number |
| AddressParser.HouseNumberStripped | migrate_adressen.py:24 | a house number is non-empty and holds no whitespace |
| AddressParser.NumberAfterSpaces | migrate_adressen.py:24 | where the whitespace stops, the house number starts |
| AddressParser.CleanCons | migrate_adressen.py:14 | a clean line in front of clean lines gives clean lines |
| Migration.Missing | migrate_adressen.py:53-55 | the missing columns are exactly the wanted ones not present, no more of them than wanted |
| Migration.AddMissingColumns | migrate_adressen.py:53-59 | the loop adds exactly the address columns that are not present, in the order of the list |
| Migration.NoneMissing | migrate_adressen.py:54-55 | nothing is missing exactly when every wanted column exists |
| Migration.SchemaUpdateComplete | migrate_adressen.py:53-59 | after the update every address column exists, and a second run adds nothing |
| Migration.MissingDistinct | migrate_adressen.py:54-57 | distinct wanted columns give distinct added columns |
| Migration.ColumnsAddedOnce | migrate_adressen.py:53-57 | no address column is added twice |
| Migration.Migrated | migrate_adressen.py:84-99 | a client without address is left as it was; one with an address gets the parsed fields; id, name and address stay |
| Migration.UpdateFields | migrate_adressen.py:95-99 | the update by id changes the four fields of the rows with that id and nothing else |
| Migration.MigrateClients | migrate_adressen.py:79-99 | the loop keeps every row's id, name and address; with distinct ids, each row ends up migrated and clients without address untouched |
| Migration.SkipStep | migrate_adressen.py:84-86 | skipping a client without address keeps the loop invariant |
| Migration.UpdateStep | migrate_adressen.py:88-99 | updating a client by id keeps the loop invariant |
| Migration.UpdateKeepsClients | migrate_adressen.py:95-99 | an update of the four address fields keeps every row's id, name and address |
| Migration.UpdateOnlyOne | migrate_adressen.py:95-99 | with distinct ids, the update by a row's id touches that row alone |
| Migration.MigratedIdempotent | migrate_adressen.py:83-99 | migrating a migrated client changes nothing |
| Migration.BlankAddressClears | migrate_adressen.py:84-88 | a whitespace-only address is not skipped and clears all four fields; an empty one is skipped |
| DateFormat.FormatDateCh | app/main.py:38-49 | the result is empty exactly for a missing or empty value; a rewritten date has ten characters and no dash |
| DateFormat.RewrittenLength | app/main.py:46-48 | the rewritten date has ten characters |
| DateFormat.ThreeParts | app/main.py:46-47 | the first ten characters split into three parts exactly when they hold two dashes |
| DateFormat.PassThrough | app/main.py:45-49 | a text without a dash, shorter than ten characters, or without two dashes in front is returned whole |
| DateFormat.RewritesIsoDate | app/main.py:45-48 | `a-b-c` in the first ten characters becomes `c.b.a`, and what follows is dropped |
| DateFormat.FormatTimestamp | app/main.py:45-48 | "2024-01-15 10:30" gives "15.01.2024" |
| DateFormat.FormatIdempotent | app/main.py:38-49 | formatting a formatted date changes nothing |
| ReportFilter.BuildQuery | app/main.py:60-83 | the query is the base, one clause per set filter in fixed order, and the ordering; it starts with the base, ends with ` ORDER BY r.datum DESC`, and has as many `?` as parameters |
| ReportFilter.ApplyFilters | app/main.py:69-81 | the filter block appends exactly the clauses and parameters of the set filters |
| ReportFilter.AddIfSet | app/main.py:69-77 | a set filter appends its clause and its value; an unset one changes nothing |
| ReportFilter.AddPayment | app/main.py:78-81 | `1` appends the paid clause, `0` the unpaid clause, without parameter; anything else changes nothing |
| ReportFilter.Placeholders | app/main.py:66-83 | the query holds exactly one `?` per parameter |
| ReportFilter.PlaceholdersBetween | app/main.py:66-83 | between a base and a tail without placeholders, the clauses hold one `?` per parameter |
| ReportFilter.ClausePlaceholders | app/main.py:69-81 | the clauses hold one `?` per parameter |
| ReportFilter.ClausePlaceholder | app/main.py:70-81 | each clause holds one `?` if it binds a value and none otherwise |
| ReportFilter.BaseHasNoPlaceholder | app/main.py:66 | the base query holds no `?` |
| ReportFilter.Base | app/main.py:66 | definition; properties in BaseHasNoPlaceholder |
| ReportFilter.Clause | app/main.py:70-81 | definition; properties in ClausePlaceholder |
| ReportFilter.Conditions | app/main.py:69-81 | definition; properties in ConditionsPresent, ConditionsOrdered and ParamsAreSetFilters |
| ReportFilter.OrderByHasNoPlaceholder | app/main.py:83 | the ordering holds no `?` |
| ReportFilter.ConditionsPresent | app/main.py:69-81 | each filter adds its clause exactly when set; the paid clause exactly for `1`, the unpaid exactly for `0`, never both |
| ReportFilter.ConditionsOrdered | app/main.py:69-81 | the clauses come in the order client, from, to, payment, at most one of each kind |
| ReportFilter.NonEmpty | app/main.py:69-77 | the set values are the non-empty ones |
| ReportFilter.ParamsAreSetFilters | app/main.py:69-77 | the parameters are exactly client, from and to where set, in that order |
| ReportFilter.ParamsAppend | app/main.py:67-77 | the parameters of two runs of clauses are those of the first followed by those of the second |
| ReportFilter.ClausesAppend | app/main.py:69-81 | the text of two runs of clauses is the first's text followed by the second's |
| ReportFilter.ConditionsSplit | app/main.py:69-81 | the four filters contribute their clauses and parameters one after the other |
| ReportFilter.OptionalParts | app/main.py:69-77 | a set filter gives its clause and value, an unset one nothing |
| ReportFilter.PaymentParts | app/main.py:78-81 | the payment filter gives the paid or unpaid clause, or nothing, and never a parameter |
| ReportFilter.QueryTextIgnoresValues | app/main.py:66-83 | requests that set the same filters get the same query text; values reach only the parameters |
| ReportFilter.FilterInfo | app/main.py:354-358 | the filter line is empty exactly when neither date filter is set, with one entry per set date filter |
| ReportFilter.FilterInfoSwiss | app/main.py:354-358 | with both date filters set to ISO dates, the filter line holds both in the Swiss format |
| ReportFilter.FilterInfoVon | app/main.py:354-356 | with only the from-filter set to an ISO date, the filter line is that date in the Swiss format |
| ReportFilter.FilterInfoBis | app/main.py:354-358 | with only the to-filter set to an ISO date, the filter line is that date in the Swiss format |
| ReportRows.Keys | app/main.py:92 | the keys of a row are its column names in order |
| ReportRows.ColumnFirst | app/main.py:94-96 | `r[key]` reads the first column of that name |
| ReportRows.Column | app/main.py:94-96 | a name the row lacks reads `NULL`; any other value read is the value of a column of that name (first column in ColumnFirst) |
| ReportRows.Put | app/main.py:94-96 | a key already present keeps its place and takes the new value; a new key goes at the end; the keys stay distinct |
| ReportRows.DateArgument | app/main.py:40-43 | a `NULL` or empty value is falsy and gives nothing; text, dates and timestamps are passed as their text |
| ReportRows.Presented | app/main.py:93-96 | `datum` is stored as its Swiss date; every other key keeps its value |
| ReportRows.DictOf | app/main.py:91-96 | the dictionary's keys are distinct |
| ReportRows.FormatRow | app/main.py:91-96 | the inner loop builds the dictionary of the row |
| ReportRows.FormatRows | app/main.py:89-97 | one dictionary per row, the same number of rows in the same order |
| ReportRows.DictOfKeys | app/main.py:91-96 | the dictionary has exactly the keys of the row |
| ReportRows.DictOfValues | app/main.py:91-96 | each key holds the presented value of the row's first column of that name |
| ReportRows.PutFaithful | app/main.py:94-96 | storing a key keeps the values stored for other keys |
| ReportRows.KeysKept | app/main.py:91-96 | the dictionary's keys are the row's, each holding the row's value with `datum` rewritten |
| ReportRows.DictOfDistinct | app/main.py:91-96 | with distinct column names, the dictionary lists the columns in the row's order with presented values |
| ReportRows.CopyStep | app/main.py:92-96 | with distinct names, copying the next key extends the dictionary by that column with its presented value |
| ReportRows.NewKeyStep | app/main.py:92-96 | assigning a key the dictionary lacks appends it, with the value `r[key]` reads |
| ReportRows.KeyIsNew | app/main.py:92 | with distinct column names, the next key was not copied before |
| ReportRows.ExtendColumns | app/main.py:92-96 | copying the next column keeps the dictionary column by column like the row |
| ReportRows.FormattedColumns | app/main.py:91-96 | with distinct names the row keeps its keys and order, `datum` is rewritten and every other value copied |
| ReportRows.FormattedRow | app/main.py:91-96 | definition of the finished `r_dict`; properties in FormattedColumns, ListedDate and FormattedIdempotent |
| ReportRows.ListedDate | app/main.py:93-94 | a stored date `YYYY-MM-DD` is listed as `DD.MM.YYYY` |
| ReportRows.FormattedIdempotent | app/main.py:89-97 | formatting a formatted row again changes nothing |
| ReportRows.ShortTopic | app/main.py:374 | topics up to thirty characters stay; longer ones become their first thirty characters and `...` |
| ReportRows.ShortTopicBounded | app/main.py:374 | the shown topic has at most thirty-three characters and starts like the topic |
| ReportRows.ShortTopicIdempotent | app/main.py:374 | shortening a shortened topic changes nothing |
| Cost.HourlyRate | app/main.py:141-142 | an unknown client is charged the default 120.0, a client with a numeric rate its own rate, and a non-numeric rate gives no rate |
| Cost.SelectCost | app/main.py:137-143 | a non-empty submitted cost is kept as it is; a computed cost happens only without one |
| Cost.EnteredCostWins | app/main.py:137-138 | a submitted cost wins whatever the duration, client, rates and rounding are |
| Cost.MissingLikeEmpty | app/main.py:138 | a missing cost field and an empty one select alike |
| Cost.ComputedFrom | app/main.py:139-143 | without a cost, a parsed duration and a numeric rate give the rounded minutes/60 times rate |
| Cost.Amount | app/main.py:143 | the amount times 60 is the minutes times the rate; it is not negative for a non-negative duration and rate; sixty minutes cost the rate |
| Cost.ComputedCost | app/main.py:139-143 | a duration written as an integer is read back and charged at the client's rate |
| Cost.UnknownClientDefault | app/main.py:141-142 | an unknown client is charged as a client with rate 120.0 |
| Cost.OnlyOwnRate | app/main.py:141 | only the looked-up client's rate matters |
| Cost.CostErrors | app/main.py:137-143 | the handler fails exactly when no cost was entered and a field is missing, the duration is no integer or the rate is not numeric |
| Cost.NinetyMinutesDefault | app/main.py:139-143 | ninety minutes with blanks around, at the default rate, cost round(180.0) |
| Cost.NinetyParsed | app/main.py:140 | `int(" 90 ")` is 90 |
| Text.StripLeft | migrate_adressen.py:14 | `lstrip` removes a whitespace prefix and leaves a suffix that starts with no whitespace |
| Text.StripRight | migrate_adressen.py:14 | `rstrip` removes a whitespace suffix and leaves a prefix that ends with no whitespace |
| Text.Strip | migrate_adressen.py:14 | `strip` gives a stripped text that is empty exactly for blank text, and changes nothing on stripped text |
| Text.StripAvoids | migrate_adressen.py:14 | stripping adds no character |
| Text.StripLeftSpaces | migrate_adressen.py:14 | `lstrip` removes exactly a whitespace prefix |
| Text.StripRightSpaces | migrate_adressen.py:14 | `rstrip` removes exactly a whitespace suffix |
| Text.StripPadded | app/main.py:140 | whitespace around a stripped text is removed again |
| Text.SplitOn | migrate_adressen.py:14 | `split` gives at least one piece, none holding the separator |
| Text.SplitJoin | migrate_adressen.py:14 | splitting pieces joined by the separator gives the pieces back |
| Text.StripParts | migrate_adressen.py:14 | every text is whitespace, its stripped core and whitespace |
| Text.StripSpaceCons | migrate_adressen.py:14 | a whitespace character in front does not survive `strip()` |
| Text.StripSpaceSnoc | migrate_adressen.py:14 | a whitespace character at the end does not survive `strip()` |
| Text.SplitSnocSep | migrate_adressen.py:14 | a separator at the end of a text makes `split` add one empty last piece |
| Text.SplitSnocOther | migrate_adressen.py:14 | any other character at the end of a text extends the last piece of `split` |
| Text.SplitCount | app/main.py:46-47 | a text splits into one piece more than it holds separators |
| Text.CountAppend | app/main.py:66-83 | the count of a character in two joined texts is the sum of the counts |
| Text.ParseUnsigned | app/main.py:140 | `int()` of digits is their decimal value |
| Text.ParsePadded | app/main.py:140 | `int()` ignores whitespace around the digits |
| Text.ParseNegative | app/main.py:140 | `int()` of a minus sign and digits is the negated value |
| Text.ParseIntShow | app/main.py:140 | `int(str(n)) == n` for every integer |
| Text.ParseInt | app/main.py:140 | definition; properties in ParseIntShow, ParseNegative and ParsePadded |
| Text.IntToString | app/main.py:140 | `str(n)` is not empty, starts with `-` exactly for a negative number, and is digits after the first character |
| Text.NatToStringValue | app/main.py:140 | the decimal digits of a number read back as that number |

## Left out

- Flask routing, HTTP Basic Auth, templates, redirects and the CSV and PDF rendering
  (ReportLab, `csv.writer`) are web plumbing and foreign libraries.
- SQLite connections, the `PRAGMA`, `ALTER TABLE`, `CREATE TABLE` and `UPDATE`
  statements, the `rechnungen` table and the console output of `migrate_addresses`
  (migrate_adressen.py:47-103) are I/O. MigrateClients applies the `UPDATE` to
  an in-memory list and AddMissingColumns returns the list of columns it would add.
  Neither models the SQL text.
- Migration.MigrateClients: the statement that each row ends up `Migrated` holds only
  when ids are distinct. The id is the table's primary key, which guarantees this. With
  duplicate ids, the model states only that ids, names and addresses stay.
- Float arithmetic and rounding are left out because floats are binary. The cost uses
  `real`, and `round(x, 2)` is a function parameter. The `.2f` formatting of the CSV
  and PDF, the PDF total and the payment-status labels are left out.
- The filter line's `' | '.join`, the CSV rows and the PDF table cells other than the
  topic are left out as rendering.
- ReportRows.DateArgument: a `REAL` value and a `TIMESTAMP` value are carried with the
  text `str` gives for them. Python's conversion of floats and datetimes to text is not
  modelled.
- Whitespace is the set Python's `str.isspace()` accepts, which `strip`, `\s` and
  `int()` all use. Digits are ASCII only: `\d` and `int()` also accept other Unicode
  decimal digits, so an address or duration written with those is read differently here.
- `int()` is modelled with ASCII digits, an optional sign and surrounding whitespace.
  Underscores between digits are not modelled.
- ReportRows.Column: for a name the row does not have, `sqlite3.Row` raises
  `IndexError`, while the model reads `NULL`. The row loop only asks for names from
  `r.keys()`, so this case does not arise there; the error itself is not modelled.
- `sqlite3.Row` looks up column names case-insensitively. The model compares names
  exactly, and `r[key]` reads the first column of that name, as the row does.
- The three handlers repeat the filter block (app/main.py:60-83, 263-285, 318-340).
  BuildQuery models it once; the view picks the base query.
- The client form's `stundensatz` default (app/main.py:122) is not modelled. Its effect
  on the cost, a rate stored as text or `NULL`, is the `NotNumeric` lookup.
- `insert_test_data.py`, `generate_password.py` and `add_stundensatz.py` are left out:
  seeding, password hashing and a one-off schema script. The seeded addresses appear
  only as examples.
- Invoice numbering and payment-slip payloads are not part of this model: no code for
  them exists in the repository.
