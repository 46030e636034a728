# validationFormat in Dafny

A verified model of the two validators of the `validationFormat` class:

- `validerTelephone` accepts a Canadian telephone number written `"AAA BBB-CCCC"`. It checks the length (12), that the area code `AAA` is one of a fixed list of known codes, and then checks the nine local characters one by one against the template space, three digits, hyphen, four digits.
- `validerRAMQ` checks a Quebec health-insurance (RAMQ) number against its holder's surname (`nom`), given name (`prenom`), birth day, month and year, and sex. It checks the length (14), that the names start with letters and contain only letters, spaces and hyphens, the date ranges and the sex code. It then rebuilds the expected 12-character prefix `NNNP YYMM DD`, where the month has 50 added for a woman. Finally it compares that prefix with the number, ignoring case.

The project has three modules:

- `Text` (`text.dfy`) models the Java primitives both validators use: `Character.isLetter`, `Character.isDigit`, `toUpperCase` and `String.valueOf` on non-negative integers. It also models the "pad to two digits" formatting of the RAMQ date fields, and it defines the reading of a digit string back as a number, which is the inverse of that formatting.
- `Phone` (`phone.dfy`) models `validerTelephone` as a method with the source's loop. Its partner is the declarative predicate `IsCanadianPhone`: a set of area codes plus a per-position template.
- `Ramq` (`ramq.dfy`) models `validerRAMQ` as a function returning an `Outcome`. The outcome is either the boolean result or `IndexOutOfBounds`, the exception Java raises when a name is too short to index. Its partner is the field-by-field predicate `AcceptedRamq`. The module also has the hardened wrapper `ValidateRamqSafe`, which returns false where the source throws.

The Java `byte` and `int` parameters are the subset types `JavaByte` and `JavaInt`. `moisNaissance += 50` is only reached when the month is 1..12, so the byte never wraps. `anneeNaissance % 100` is only reached when the year is at least 1910, so Java's truncating remainder and Dafny's Euclidean remainder agree there.

Two points about `validerRAMQ` worth stating:

- When the number has 14 characters and the given name is empty, or the given name starts with a letter and the surname is shorter than 3 characters that are all letters, line 52 throws `StringIndexOutOfBoundsException`. `ValidateRamq` models the throw, and `ValidateRamqSafe` is a hardened variant that returns false instead (see Findings).
- Female month codes 51..62 already have two digits, so the `< 10` padding test applied after adding 50 never leaves a one-digit field. `BirthPrefix` proves that every field is exactly two digits.

## Model

| member | source | states |
|---|---|---|
| Phone.ValidatePhone | validationFormat.java:11-43 | a string of any length other than 12 is rejected, and the loop's verdict is exactly `IsCanadianPhone`: a known area code (as a set), then a space, digits, a hyphen and digits at the template positions |
| Phone.CanadianPhoneShape | validationFormat.java:25-41 | the template over the last nine characters means: position 3 is a space, position 7 is a hyphen, and positions 4-6 and 8-11 are digits; both directions |
| Phone.AreaCodeListAsSet | validationFormat.java:16-21 | searching the 32-entry list (with "902" and "867" repeated) gives the same answer as membership in the deduplicated set |
| Phone.AreaCodeCount | validationFormat.java:16-20 | the list has 32 entries but only 30 distinct area codes |
| Phone.AreaCodesAreDigits | validationFormat.java:17-19 | every known area code is exactly three decimal digits |
| Phone.AcceptedPhoneDigits | validationFormat.java:16-41 | an accepted number has a digit at every position except the space at 3 and the hyphen at 7, including the area code |
| Phone.PhoneExamples | validationFormat.java:85-86 | "418 666-6666" is accepted; "999 666-6666" (unknown area code) and "418.666.6666" (wrong separators) are rejected |
| Text.UpperCharEqual | validationFormat.java:81 | two characters upper-case to the same character exactly when they are equal or are the same letter in different case |
| Text.UpperEqual | validationFormat.java:81 | two strings upper-case to the same string exactly when they have the same length and agree position by position up to case |
| Text.Upper | validationFormat.java:81 | upper-casing keeps the length and maps each character on its own |
| Text.UpperPrefix | validationFormat.java:81 | upper-casing and then taking the first 12 characters equals taking them and then upper-casing |
| Text.DecimalString | validationFormat.java:75-77 | the decimal numeral of n is all digits with no leading zero; it has one digit exactly when n < 10 and at most two exactly when n < 100 |
| Text.DecimalRoundTrip | validationFormat.java:75-77 | reading the decimal numeral of n back as a number gives n |
| Text.ZeroPad2 | validationFormat.java:75-77 | the padded field is all digits, denotes n, and is exactly two characters long exactly when n < 100 |
| Text.ZeroPad2Unique | validationFormat.java:75-77 | a two-character string is the padded field of n exactly when it is all digits and denotes n |
| Ramq.MonthCode | validationFormat.java:67-69 | the month code is 51..62 for 'f'/'F' and 1..12 otherwise; the code alone gives back the month (code mod 50) and whether the holder is a woman (code > 50) |
| Ramq.BirthPrefix | validationFormat.java:74-80 | the rebuilt prefix has length 12: the surname's first three characters, the given name's first character, a space, two digits denoting year mod 100, two digits denoting the month code, a space, and two digits denoting the day |
| Ramq.ValidateRamq | validationFormat.java:45-82 | a number of a length other than 14 is rejected; the call throws exactly when the number has 14 characters and the given name is empty, or the given name starts with a letter and the surname is shorter than 3 characters and all letters; names of at least 3 and 1 characters never throw; acceptance implies valid name characters, day 1..31, month 1..12, year >= 1910, and a sex code in m/M/f/F |
| Ramq.RamqAcceptance | validationFormat.java:45-81 | the validator returns true exactly when `AcceptedRamq` holds: the input checks pass, and the number's first 12 characters read up to case as surname initials, given-name initial, a space, year mod 100, month (plus 50 for a woman), a space and the day |
| Ramq.PrefixComparison | validationFormat.java:80-81 | comparing the upper-cased rebuilt prefix with the upper-cased number's first 12 characters is the same as reading the number's fields |
| Ramq.ValidateRamqSafe | validationFormat.java:51-54 | the hardened check never throws; it is true exactly when `AcceptedRamq` holds, and an empty given name or a surname shorter than 3 characters makes it false |
| Ramq.AcceptedNumberShape | validationFormat.java:74-81 | an accepted number has 14 characters: letters at 0-3, spaces at 4 and 9, and digits at 5-8 and 10-11 |
| Ramq.RamqNumberUpToCase | validationFormat.java:47-49 | two numbers of the same length whose first 12 characters upper-case alike get the same outcome, so characters 12-13 and letter case never matter |
| Ramq.RamqYearModulo | validationFormat.java:63-77 | two years on the same side of 1910 that agree mod 100 give the same outcome |
| Ramq.RamqNamesThroughInitials | validationFormat.java:52-80 | apart from the character check on the whole names, only the surname's first three characters and the given name's first character affect the outcome |
| Ramq.RamqExampleAccepted | validationFormat.java:88-95 | ("POIG 9758 0316", "Poitras", "Ginette", 3, 8, 1997, 'F') is accepted |
| Ramq.RamqExampleRejected | validationFormat.java:56-72 | the same person with sex code 'X', or with a digit in the given name, is rejected |
| Ramq.ShortSurnameThrows | validationFormat.java:52 | a 14-character number checked against the two-letter surname "Li" throws instead of returning, and the hardened check rejects it |

## Left out

- `main` (validationFormat.java:84-96) only prints two results. Its inputs appear as `Phone.PhoneExamples` and `Ramq.RamqExampleAccepted`.
- Unicode character classes. `Character.isLetter` and `Character.isDigit` are modelled over ASCII only, so the model rejects names with accented letters (such as "Hélène") that Java accepts, and non-ASCII digits.
- Unicode upper-casing. `toUpperCase` is modelled as mapping a-z to A-Z and leaving every other character unchanged. Java's locale-dependent casing of non-ASCII characters, some of which change the string's length, is not modelled.
- Ramq.ValidateRamq: a string is a sequence of Unicode scalar values, while Java's `length()`, `charAt` and `substring` count UTF-16 code units. A number containing a character outside the Basic Multilingual Plane therefore has a different length here than in Java. For example, "POIG 9758 03" followed by one emoji has 13 characters here and is rejected, while Java counts 14 code units and accepts it.
- Ramq.ValidateRamq: the model assumes a default locale whose upper-casing of ASCII is the plain a-z to A-Z mapping. Under a Turkish or Azerbaijani default locale, Java's `toUpperCase()` maps 'i' to 'İ', so a name such as "Poitras" would not match "POIG…" there.
- `null` arguments, which make both Java methods throw `NullPointerException`, are not modelled: every string here is a value.
- The `ArrayList` allocated on every call of `validerTelephone` is modelled as the constant list `AreaCodeList`. Allocation has no observable effect.

## Findings

| source | as written | input that shows it | evidently intended | confidence | as-written member | corrected member |
|---|---|---|---|---|---|---|
| validationFormat.java:52 | `charAt` on the given name and the first three surname characters is not guarded: when the given name is empty, or it starts with a letter and the surname is shorter than 3 characters that are all letters, the call throws `StringIndexOutOfBoundsException` | ("LIXG 9758 0316", "Li", "Ginette", 3, 8, 1997, 'F') | a short name is invalid input and should give false, like every other invalid input | high; not executed | Ramq.ShortSurnameThrows | Ramq.ValidateRamqSafe |
