# Peruvian invoice field extraction, modelled in Dafny

This project models `extract_peru_data` from `app.py`. The function takes
the lines an OCR engine recognized on a photographed Peruvian invoice and
extracts four fields:

- `ruc_emisor`: the issuer's taxpayer number (RUC).
- `fecha_emision`: the emission date.
- `moneda`: the currency, `PEN` or `USD`.
- `total`: the total amount.

It returns the record together with the recognized line texts. The model
also covers `clean_text`, the small normalisation helper defined next to it.

The extraction joins the line texts with single spaces and makes four
independent scans over the joined text:

- **RUC** (`ruc.dfy`): the leftmost 11-digit run starting with `10` or `20`,
  with a word boundary on both sides. The search runs over the joined text
  with every ASCII space removed.
- **Date** (`dates.dfy`): the leftmost `dd[-/]dd[-/]dddd`. The two separators
  are chosen independently, and there is no calendar check.
- **Total** (`money.dfy`): every money-shaped token, found left to right
  without overlap as `re.findall` does, converted to a number. The total is
  the largest amount, or 0 when there is none.
- **Currency** (`currency.dfy`): `USD` when the text contains `USD` or `$`
  (case-sensitive), otherwise `PEN`.

Each regular pattern is an explicit recursive matcher over `seq<char>`. A
declarative "matches at position i" predicate sits next to it, and lemmas tie
the two together. For money, the matcher is proved sound and complete against
a grammar-style description of `\d{1,3}(?:,\d{3})*\.\d{2}`. From that, at
most one match starts at any position, and the `findall` result is the only
list of spans that meets the leftmost, non-overlapping description. Amounts
are exact integer numbers of cents. The `total` field is in cents too.

`extraction.dfy` assembles the record. The contract of `ExtractPeruData`
gives each field's meaning in terms of these predicates.

Some behaviour of `app.py` worth stating plainly:

- the currency test looks at `$` as well as `USD`, and nothing else (there
  is no `SOLES` marker);
- the total is the maximum of all amounts in the text, not an amount
  anchored to a keyword such as `TOTAL` or `IMPORTE`;
- the RUC is accepted without the SUNAT modulo-11 check digit, and only the
  prefixes 10 and 20 are recognised;
- only `dd-mm-yyyy`/`dd/mm/yyyy`-shaped dates are recognised, not
  `YYYY-MM-DD`;
- there is no lookup of known merchants.

Modules: `Wrappers` (Option), `Chars` (character classes, digit values,
`str.replace` with an empty replacement), `Lines` (OCR lines, `" ".join`,
space removal), `Ruc`, `Dates`, `Money`, `Currency`, `Cleaning`, `Extraction`.

## Model

| member | source | states |
|---|---|---|
| Extraction.ExtractPeruData | app.py:32-84 | returns the line texts unchanged and in order; `ruc_emisor` is unset exactly when the space-free joined text has no RUC match, and otherwise is the leftmost match, 11 digits starting 10/20; `fecha_emision` likewise for the leftmost date-shaped substring; `moneda` is USD iff `USD` or `$` occurs; `total` is 0 with no amount token, otherwise one of the token values and at least every token value |
| Extraction.NothingFoundGivesDefaults | app.py:42-47 | when no RUC, date, currency marker or amount occurs, the record is exactly the defaults (None, None, PEN, 0) |
| Extraction.FieldsDescribe | app.py:49-82 | the four scans over one joined text give the leftmost RUC of the space-free text, the leftmost date, the `USD`/`$` currency test and the largest amount |
| Extraction.EmptyInputGivesDefaults | app.py:39-47 | an empty OCR result yields the default record and an empty line list |
| Extraction.RucIgnoresSpaces | app.py:51 | two OCR results whose lines have the same non-space characters, taken in order, give the same `ruc_emisor`, however spaces and line breaks fall |
| Extraction.TextsDecide | app.py:39 | the result depends only on the line texts, not on boxes or confidences |
| Lines.LineTexts | app.py:39 | one text per OCR line, in order, each the line's recognized text |
| Lines.JoinAppend | app.py:40 | joining two non-empty lists puts exactly one space between their joins |
| Lines.JoinLayout | app.py:40 | in the joined text, line k sits unchanged at its offset (the total length of earlier lines plus one space each), is followed by one space unless it is last, and the text ends right after the last line |
| Lines.RemoveSpacesJoin | app.py:40-51 | removing the spaces of the joined text gives the concatenation of the lines with their spaces removed |
| Lines.RemoveSpaces | app.py:51 | `replace(" ", "")` leaves no space and keeps every other character exactly as many times as it occurs |
| Lines.InsertSpace | app.py:51 | inserting a space anywhere in a text does not change its space-free form |
| Chars.Remove | app.py:51 | `replace(c, "")` leaves no `c`, keeps every other character that occurs, and never lengthens the text |
| Chars.RemoveCount | app.py:51 | `replace(c, "")` drops every `c` and keeps every other character exactly as many times as it occurs |
| Chars.RemoveLength | app.py:51 | the result is shorter than the input by exactly the number of occurrences of `c` |
| Chars.RemovePositions | app.py:51 | the kept characters stay in order: the character at position k moves left by exactly the number of `c` before it |
| Chars.RemoveAppend | app.py:51 | removing a character distributes over concatenation |
| Chars.RemoveIdempotent | app.py:51 | removing a character twice is the same as removing it once |
| Chars.NumberValueAppend | app.py:71 | reading `a + b` as a decimal number equals reading `a`, shifting it left by as many places as `b` has digits, and adding `b` |
| Ruc.FindRuc | app.py:51 | the position found is a match of `\b(10\|20)\d{9}\b` with no match between the start and it; no result means no match at or after the start |
| Ruc.SearchRuc | app.py:51-53 | the RUC is an 11-digit number starting with 10 or 20; it is unset iff the space-free text has no match, and otherwise is the text of the leftmost match |
| Ruc.NoRucAfterWordChar | app.py:51 | a digit run directly after a letter, digit or underscore is not matched (`RUC20100070970`) |
| Ruc.LabelSpaceHidesRuc | app.py:51 | for a label ending in a word character, "label number" with a space is not matched where the number starts: removing the space glues the number to the label |
| Ruc.SearchRucIgnoresSpaces | app.py:51 | the RUC found depends only on the concatenation of the lines' non-space characters |
| Ruc.SearchRucSpaceInsertion | app.py:51 | inserting a space at any position of any line does not change the RUC found |
| Dates.FindDate | app.py:56 | the position found is a match of `\d{2}[-/]\d{2}[-/]\d{4}` with no earlier match from the start; no result means no match at all from the start |
| Dates.SearchDate | app.py:56-58 | the date is unset iff the text has no match, and otherwise is the 10-character text of the leftmost match, with separators chosen independently |
| Money.DigitRun | app.py:65 | the run counted from `i` is all digits and is followed by a non-digit or the text's end |
| Money.SkipGroups | app.py:65 | the greedy scan of `,ddd` groups ends at a position after a run of whole groups, where no further group starts |
| Money.MatchMoney | app.py:65 | a match reported at `i` spans a substring of the pattern's shape |
| Money.MoneyAtFromParts | app.py:65 | one to three digits, comma groups, a point and two digits together form a match |
| Money.SkipGroupsExact | app.py:65 | the greedy group scan stops exactly at the end of any group run that is not followed by another group |
| Money.MoneyAtParts | app.py:65 | every match splits into one to three leading digits, comma groups, a point and two digits |
| Money.MatchMoneyComplete | app.py:65 | every match of the pattern at `i` is the one the matcher reports |
| Money.MoneyAtUnique | app.py:65 | at most one match starts at any position |
| Money.MatchMoneyNone | app.py:65 | when the matcher reports nothing at `i`, no match starts there |
| Money.DigitRunCovers | app.py:65 | the digit run at `i` is at least as long as any run of digits there |
| Money.FourDigitsNoMatch | app.py:65 | no match starts at four digits in a row, so `1234.56` is not matched from its first digit |
| Money.MatchIgnoresWhatFollows | app.py:65 | a match stays a match whatever text follows it, so `12.345` yields `12.34` |
| Money.FindAllMoney | app.py:65 | the spans are the `findall` matches: each is the leftmost match at or after the end of the previous one, and no match remains after the last |
| Money.FindAllFirst | app.py:65 | the first reported match starts at or before any match at or after the scan's start |
| Money.FindAllUnique | app.py:65 | exactly one list of spans meets the `findall` description |
| Money.FindAllOrdered | app.py:65 | reported matches are of the pattern's shape, lie inside the scanned text, are in left-to-right order and do not overlap |
| Money.Tokens | app.py:65 | the strings `findall` returns are the matched substrings, one per span, in span order |
| Money.MoneyTokens | app.py:65 | the tokens are the texts of the spans meeting the leftmost, non-overlapping `findall` description from the start of the text, in order, and each has the pattern's shape |
| Money.ParseCents | app.py:70-74 | conversion succeeds exactly on digits, a point and two digits; anything else is skipped as the `except` branch does |
| Money.GroupsDigitsOrCommas | app.py:65 | comma groups consist only of commas and digits |
| Money.RemoveCommasDigits | app.py:71 | dropping the commas from digits and commas leaves only digits |
| Money.IntegerPartDigits | app.py:71 | the integer part of a token without its commas is a non-empty digit string that starts with the token's first digit |
| Money.TokenWithoutCommas | app.py:71 | `replace(',', '')` only touches a token's integer part; the point and the two decimals are kept |
| Money.CentsAreDigits | app.py:71 | a token's amount in cents is the number its digits spell once commas and the point are dropped (`1,234.50` is 123450 cents) |
| Money.ParseToken | app.py:67-74 | converting a token never fails, and gives exactly its integer part without commas times 100 plus its two decimals, in cents |
| Money.ParseDecimal | app.py:71 | digits, a point and two digits convert to their exact value in cents |
| Money.ValidAmounts | app.py:68-74 | the list of converted amounts is never longer than the list of tokens |
| Money.ValidAmountsOfTokens | app.py:68-74 | on pattern tokens no conversion is skipped, and amount k is the exact value of token k |
| Money.MaxOrZero | app.py:76-78 | the result is at least every amount, is one of them when there is any, and is 0 for none |
| Money.SearchTotal | app.py:65-78 | the total is at least every token's value; it is 0 when there is no token and otherwise equals one token's value |
| Currency.OccursFrom | app.py:81 | true exactly when the pattern occurs at the given position or later |
| Currency.Contains | app.py:81 | `pat in s` holds exactly when `pat` occurs at some position of `s` |
| Currency.DetectCurrency | app.py:80-82 | USD iff the text contains `USD` or `$`; otherwise PEN, so it is always one of the two |
| Currency.DollarSignMeansUsd | app.py:81 | a `$` anywhere in the text makes the currency USD |
| Currency.AbsentFirstChar | app.py:81 | a pattern whose first character is absent from the text does not occur in it |
| Currency.LowerCaseUsdIsSoles | app.py:81-82 | the test is case-sensitive: any text without a capital `U` and without `$`, such as one whose only marker is a lower-case `usd`, stays PEN |
| Cleaning.StripStart | app.py:30 | `lstrip` returns a suffix that does not start with whitespace, and everything it drops is whitespace |
| Cleaning.StripEnd | app.py:30 | `rstrip` returns a prefix that does not end with whitespace, and everything it drops is whitespace |
| Cleaning.Strip | app.py:30 | `strip` returns a contiguous piece of the text with no whitespace at either end, dropping only whitespace |
| Cleaning.UpperChar | app.py:30 | a lower-case ASCII letter maps to its capital and every other character to itself; the result is never lower-case |
| Cleaning.Upper | app.py:30 | `upper` keeps the length and position of every character, capitalising lower-case ASCII letters and leaving all else unchanged |
| Cleaning.CleanText | app.py:29-30 | the cleaned text is the upper-cased piece of the input left after dropping only leading and trailing whitespace; it has no surrounding whitespace and no lower-case letter |
| Cleaning.UpperKeepsEdges | app.py:30 | upper-casing keeps a text free of whitespace at both ends |
| Cleaning.StripTrimmed | app.py:30 | `strip` leaves a text that has no surrounding whitespace unchanged |
| Cleaning.UpperIdempotent | app.py:30 | upper-casing twice is upper-casing once |
| Cleaning.CleanTextIdempotent | app.py:29-30 | cleaning a cleaned text changes nothing |

## Left out

- The Streamlit page, upload widget, image display and result rendering (app.py:87-127). These are presentation and I/O.
- PaddleOCR, its GPU set-up and the OCR call (app.py:14-27, app.py:105). The engine is a foreign library. Its output is modelled only as a sequence of `OcrLine` values. Boxes and confidences are carried but never read.
- PIL and NumPy image conversion (app.py:96, app.py:102). These are foreign calls.
- Unicode semantics of `\d`, `\w`, `str.isspace` and `str.upper`. Digits, word characters, whitespace and case mapping are ASCII-only. A RUC glued to a non-ASCII letter such as `Ñ` therefore counts as having a word boundary here, though Python would see none.
- Money.ParseCents: models `float()` only on strings of digits, a point and two digits. Python's `float` accepts more, such as signs, exponents and surrounding whitespace. Only pattern tokens reach the conversion, and `Money.ParseToken` proves they always take the success path.
- Extraction.ExtractPeruData: `total` is exact cents, not a binary floating-point value. Two amounts that differ only beyond double precision compare as different here but may compare equal in the source.
- Determinism and re-entrancy of repeated calls are not stated as lemmas. Every member is a pure function, so they hold by construction.
