# Engine diagnosis chatbot, modelled in Dafny

The chatbot answers a free-text message about an engine. It takes the
first number in the text as the engine speed (RPM) and the second as the
coolant temperature. Then it looks for a row of the engine dataset with the
same rounded speed and a coolant temperature within two degrees. If no row
matches, a threshold diagnoser decides the condition. The condition is looked
up in a fixed catalog, and the reply names the problem, its likely causes and
the manual section to read. A message without numbers, or with only one,
gets a prompt asking for what is missing.

The model is pure, as the program is: one request is one function call.

| module | models |
|---|---|
| `Scanner` (Scanner.dfy) | `re.findall(r'\d+\.?\d*', text)`: a recursive left-to-right scan over the string, proved equal to a leftmost-longest reference definition |
| `Decimal` (Decimal.dfy) | `float(token)` as an exact rational value |
| `Rounding` (Rounding.dfy) | `round(x)` and pandas `Series.round()`: round half to even |
| `Catalog` (Catalog.dfy) | the `condition_responses` map and its `.get(label, entry of 0)` lookup |
| `Diagnoser` (Diagnoser.dfy) | `diagnose_problem`, the ordered threshold rules |
| `ReferenceTable` (ReferenceTable.dfy) | the boolean-mask query on the dataset and taking its first row |
| `Whitespace` (Whitespace.dfy) | `str.strip()` with Python's whitespace set |
| `Chatbot` (Chatbot.dfy) | `parse_input` and the `/chat` handler: prompts, table match, fallback diagnosis, catalog lookup and the reply text |
| `Wrappers` (Wrappers.dfy) | the `Option` type |

The dataset arrives as a parameter: a sequence of rows holding the "Engine
rpm", "Coolant temp" and "Engine Condition" columns. A condition label is
either an integer code (`Code(1)` normal, `Code(0)` unspecified issue) or a
fault name. The request's `message` field arrives as `Option<string>`:
`None` stands for a request with no usable text, which the handler answers
with its fixed instruction.

## Model

| member | source | states |
|---|---|---|
| Scanner.MatchEnd | app.py:41 | a match of the pattern starts at a position exactly when the character there is a digit |
| Scanner.MatchIsNumeral | app.py:41 | the greedy match at a digit is in the language `\d+\.?\d*` |
| Scanner.MatchEndIsLongest | app.py:41 | the greedy match at a digit is the longest match of the pattern at that position |
| Scanner.NextCharBreaksMatch | app.py:41 | adding the character after a match never gives a match, so each token is maximal |
| Scanner.LongestMatchUnique | app.py:41 | two longest matches at one position end at the same place |
| Scanner.ScanFrom | app.py:41 | every span the scan reports lies inside the text, after the start position, and is nonempty |
| Scanner.ScanIsLeftmostLongest | app.py:41 | the scan lists leftmost-longest matches, with no digit in the text between or after them |
| Scanner.LeftmostLongestIsScan | app.py:41 | any list of spans meeting the leftmost-longest definition is the scan's list, so the definition determines `findall` |
| Scanner.LeftmostLongestOrdered | app.py:41 | the spans are in text order and do not overlap |
| Scanner.LongestMatchesAreNumerals | app.py:41 | each listed span is a numeral that begins with a digit |
| Scanner.TextsAt | app.py:41 | the k-th token is the text of the k-th span |
| Scanner.Tokens | app.py:41 | every token `findall` returns has the shape digits, optional point, digits |
| Scanner.NoDigitNoTokens | app.py:41 | a text with no digit yields no tokens |
| Scanner.DigitGivesToken | app.py:41 | a text with a digit yields at least one token |
| Scanner.SurroundedTokens | app.py:41 | text without digits before a string, and text without digits or points after it, leaves the tokens unchanged |
| Decimal.DigitsValue | app.py:45 | the value of n decimal digits is below 10^n |
| Decimal.DecimalValue | app.py:45-47 | `float(token)` as an exact value; specified by IntegerPartIsFloor, DecimalScaled, NatNumeralValue and TrailingPoint |
| Decimal.NumeralShape | app.py:45 | a numeral is a run of digits, then either nothing or a point followed by digits |
| Decimal.IntegerPartIsFloor | app.py:45 | the digits before the point are the floor of the value `float` gives |
| Decimal.NatNumeralValue | app.py:45 | reading back the decimal numeral of a natural number gives that number |
| Decimal.TrailingPoint | app.py:45 | a trailing point does not change the value: `float("12.") == float("12")` |
| Decimal.ValueExamples | app.py:45 | "700" and "95" are numerals with values 700 and 95 |
| Decimal.DigitsValueAppend | app.py:45 | reading digits in two pieces: the first piece counts in units of 10 to the length of the second |
| Decimal.DecimalScaled | app.py:45-47 | the value of a numeral is the integer its digits spell without the point, divided by 10 to the number of fraction digits |
| Decimal.FractionExamples | app.py:45-47 | "81.5" reads as 81.5 and "0.05" as 0.05 |
| Rounding.RoundHalfEven | app.py:68 | the result is a nearest integer, and the even one at a tie |
| Rounding.HalfEvenRoundingUnique | app.py:68 | the half-even rule allows one result only |
| Rounding.RoundExamples | app.py:68 | 700.4 and 699.6 round to 700; 700.5 rounds to 700, 701.5 to 702, -0.5 to 0 |
| Catalog.Lookup | app.py:80 | the lookup always returns a catalog entry: the label's own entry when it has one, the entry of code 0 otherwise |
| Catalog.LookupFallback | app.py:80 | "Potential Issue" comes back exactly for code 0 and for labels the catalog lacks |
| Catalog.ProblemsDistinct | app.py:11-17 | different catalog labels name different problems |
| Catalog.LookupKnown | app.py:11-17 | each of the five labels finds its own entry |
| Diagnoser.FirstRuleWins | app.py:19-27 | each label comes out exactly when its rule is the first that holds: above 90 degrees overheating whatever else; then oil pressure below 2.5; then fuel pressure below 10; otherwise code 1 |
| Diagnoser.Diagnose | app.py:19-27 | `diagnose_problem`; specified by FirstRuleWins, IgnoresUnusedReadings and DiagnosisInCatalog |
| Diagnoser.DiagnosisInCatalog | app.py:19-27 | every diagnosis has its own catalog entry, never the fallback |
| Diagnoser.IgnoresUnusedReadings | app.py:19-27 | the speed, the coolant pressure and the oil temperature never change the diagnosis |
| ReferenceTable.FirstMatch | app.py:67-73 | the result is the first row in table order whose rounded speed equals the query's and whose coolant temperature is within two degrees; none exactly when no row matches |
| ReferenceTable.Matches | app.py:67-70 | the mask of one row: equal rounded speeds and the row's coolant temperature within two degrees; specified by SameRoundingSameMatch and WindowInclusive |
| ReferenceTable.TableCondition | app.py:72-73 | the label of the first matching row (`.iloc[0]`); specified by FilterThenFirst and MatchExample |
| ReferenceTable.Filter | app.py:67-70 | a row is kept exactly when it is in the table and matches; table order is stated by FilterKeepsOrder |
| ReferenceTable.FilterKeepsOrder | app.py:67-70 | the mask keeps table order: filtering two stretches one after the other is filtering the whole, and a single row is kept exactly when it matches |
| ReferenceTable.FilterThenFirst | app.py:67-73 | filtering and then taking the first row equals the first-match search: empty exactly when it finds nothing, and the same row and label otherwise |
| ReferenceTable.SameRoundingSameMatch | app.py:68 | two query speeds that round alike find the same row |
| ReferenceTable.WindowInclusive | app.py:69 | the coolant window is closed at both ends |
| ReferenceTable.MatchExample | app.py:67-73 | a row at 699.6 RPM and 97 degrees answers a query at 700 RPM and 95 degrees |
| Whitespace.StripLeading | app.py:58 | the result is a suffix of the text; everything removed is whitespace; the result does not start with whitespace |
| Whitespace.StripTrailing | app.py:58 | the result is a prefix of the text; everything removed is whitespace; the result does not end with whitespace |
| Whitespace.Strip | app.py:58 | `str.strip()`; specified by StripLeading, StripTrailing, StripSplit and StripKeepsTokens |
| Whitespace.StripSplit | app.py:58 | the text is the stripped text between two runs of characters with no digit, the second run also without a point |
| Whitespace.StripKeepsTokens | app.py:58-59 | stripping the message never changes the numbers found in it |
| Chatbot.ParseInput | app.py:29-49 | the four other readings are always 3.0, 15.0, 2.0 and 80.0; RPM is set exactly when the text has at least one token, coolant temperature exactly when it has two; each holds its token's value |
| Chatbot.RpmMissingIffNoDigit | app.py:41-45 | RPM is missing exactly when the text has no digit |
| Chatbot.LaterNumbersIgnored | app.py:44-47 | texts whose first two tokens agree parse alike, whatever follows |
| Chatbot.MissDependsOnCoolantOnly | app.py:74-78 | when no row matches, the label is overheating exactly above 90 degrees and code 1 otherwise; the pressure faults never come out |
| Chatbot.MatchDecides | app.py:72-73 | a matching row's label is the condition, whatever the diagnoser would say |
| Chatbot.Condition | app.py:72-78 | the first matching row's label, else the diagnosis on the parsed readings; specified by MatchDecides and MissDependsOnCoolantOnly |
| Chatbot.ReplyIsNoPrompt | app.py:81 | a formatted diagnosis differs from each of the three fixed messages |
| Chatbot.FormatReply | app.py:81 | the reply text; specified by ReplyIsNoPrompt, and used in the contract of Chat |
| Chatbot.PromptsDistinct | app.py:61-64 | the three fixed messages differ from one another |
| Chatbot.Chat | app.py:56-85 | no message gives the fixed instruction, no number the RPM prompt, one number the coolant prompt, each exactly; with two numbers the reply formats the catalog entry of the first matching row's label, or of the diagnosis on the defaults |
| Chatbot.ChatReportsCondition | app.py:66-82 | with two numbers, the reply is the formatted entry of the parsed reading's condition |
| Chatbot.TokensExample | app.py:41 | "700 95" yields the tokens "700" and "95" |
| Chatbot.ParseExample | app.py:29-49 | " 700 95" parses to speed 700, coolant 95 and the defaults |
| Chatbot.DiagnosisExample | app.py:74-81 | with no table rows, " 700 95" is answered with the overheating entry |
| Chatbot.TableExample | app.py:67-81 | a matching row labelled 1 makes the reply "Normal" where the diagnoser would say overheating |
| Chatbot.PromptExamples | app.py:61-64 | "hot" gets the RPM prompt, "700" the coolant prompt, and no message the fixed instruction |

## Left out

- Flask setup, the routes, `render_template`, `jsonify` and reading `request.json`: web I/O. The handler's input is the message as `Option<string>` and its output is the reply text.
- `pd.read_csv`: file I/O. The loaded dataset is the `table` parameter, a sequence of rows.
- The pandas mask machinery: only its meaning is modelled, as a filter over the sequence and as a first-match search.
- Chatbot.Chat: of the catch-all `except`, only "the request has no text message" is modelled (the `None` case). Other runtime failures are not, such as a dataset missing one of the three columns.
- IEEE floating point: numbers are exact reals. `float()` of a numeral with hundreds of digits gives `inf`, `round(inf)` raises, and the program then sends the fixed instruction. The model diagnoses such a reading instead. Binary rounding of values like 699.6 is not modelled either.
- Scanner.IsDigit: only ASCII digits. Python's `\d` on a `str` also matches other Unicode decimal digits, and `float()` accepts them.
- Catalog.Lookup: labels are integer codes or names only. A dataset label such as `1.0` or `True` equals the key `1` in Python and finds the "Normal" entry. The model has no such label.
- Missing values (NaN) in the dataset are not modelled. In the program a row with NaN in "Engine rpm" or "Coolant temp" never matches. A row with NaN in "Engine Condition" still matches, and its label behaves like an unknown label: the reply is the entry of code 0.
- The `index` route and `app.run`: they serve the page and start the server.
