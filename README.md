# Flink CSV file format: schema compilation and row-count estimation

This project models the logic in Apache Flink's CSV file format factory
(`CsvFileFormatFactory`). It covers two parts:

- **Row-count estimation** (`CsvBulkDecodingFormat.reportStatistics`). Every file's
  length is added to a total. While fewer than 100 lines have been sampled across all
  files, lines are read, and each adds its UTF-8 byte length plus one to the sampled
  size. If fewer than 100 lines were sampled, the sampled size is replaced by the total
  size. The reported statistic is `total * min(100, sampled lines) / sampled size`
  with integer division. It is `UNKNOWN` when the sampled size is zero or when anything
  throws. Module `RowCountEstimator` models this as imperative code:
  - `SampleFiles` is the `for` loop over the files.
  - `SampleOpenedFile` is the inner `while` loop over one opened file.
  - `ReportStatistics` adds the tail: the substitution, the zero check and the division.

  Each of them is proved against the closed-form specification `Estimate`, which is
  stated over the whole file list: all lines in file order, the first 100 of them, the
  sum of the lengths, and where an exception is reached. The properties are lemmas
  about `Estimate`.
- **Schema compilation** (`buildCsvSchema`). The base schema comes from the row-type
  conversion, which is taken as an input. Six independent optional overrides are then
  applied to it: column separator, quote character (or quoting disabled), comments,
  array element separator, escape character and null value. Module
  `CsvSchemaBuilder` models this as a pure function. It returns either the schema or
  the exception compilation throws: unescaping the field delimiter fails, or
  `charAt(0)` meets an empty string. The module also models the decoder settings that
  `createRuntimeDecoder` derives from the same options.
- **Java strings.** Option values and schema characters are Java strings and `char`s,
  that is UTF-16 code units (module `JavaText`). So `charAt(0)` of an option that starts
  with a character above U+FFFF is a high surrogate.
- **Unescaping.** Module `JavaUnescape` models commons-lang3
  `StringEscapeUtils.unescapeJava`, which the field delimiter goes through. That
  library's source is not part of this model. The model follows its translator chain,
  tried in order at each backslash:
  - octal escapes;
  - unicode escapes with extra `u`s, an optional `+`, and `Integer.parseInt`'s sign;
    they throw when truncated or unparsable;
  - the control escapes;
  - the escaped backslash and quotes;
  - any other backslash, which is dropped.

Files are abstract records with two parts:
- the outcome of the status request: a failure, or a length;
- the outcome of reading: a failure to open, or the UTF-8 byte lengths of the lines,
  followed by either the end of the stream or an I/O error.

All integers are unbounded.

Three behaviours of the code are easy to misread:
- `allow-comments` sets comment handling to the configured boolean, which may be `false`.
- `ignore-parse-errors` switches lenient decoding on whenever the option is present,
  even when it is set to `false`.
- Defaults such as `,` and `"` are not set by `buildCsvSchema`. They are whatever the
  base schema holds, so the model keeps the base schema's values.

## Model

| member | source | states |
|---|---|---|
| `RowCountEstimator.ReadLine` | flink-formats/flink-csv/src/main/java/org/apache/flink/formats/csv/CsvFileFormatFactory.java:178-180 | `readLine` gives the next line while lines remain. At the end it gives end-of-stream, or an I/O error when the file fails there. |
| `RowCountEstimator.SampleOpenedFile` | flink-formats/flink-csv/src/main/java/org/apache/flink/formats/csv/CsvFileFormatFactory.java:172-186 | Reading one opened file below the cap throws exactly when the file errors at its end before the cap is reached. Otherwise it samples `min(cap - cnt0, lines)` more lines, and each adds its byte length plus one to the size. |
| `RowCountEstimator.SampleFiles` | flink-formats/flink-csv/src/main/java/org/apache/flink/formats/csv/CsvFileFormatFactory.java:163-187 | The pass throws exactly when the list fails. Otherwise the total is the sum of all lengths, the count is `min(100, all lines)`, and the size is the sampled bytes of those first lines. |
| `RowCountEstimator.ReportStatistics` | flink-formats/flink-csv/src/main/java/org/apache/flink/formats/csv/CsvFileFormatFactory.java:156-204 | The statistic reported equals the closed-form `Estimate` of the file list. |
| `RowCountEstimator.FailureAt` | flink-formats/flink-csv/src/main/java/org/apache/flink/formats/csv/CsvFileFormatFactory.java:166-186 | A failed status request, or a read that throws while the cap is not reached, makes the whole list fail. |
| `RowCountEstimator.FileStepSucceeds` | flink-formats/flink-csv/src/main/java/org/apache/flink/formats/csv/CsvFileFormatFactory.java:166-172 | A file handled without an exception adds its length to the total and keeps the list free of failures. |
| `RowCountEstimator.SampleFileStep` | flink-formats/flink-csv/src/main/java/org/apache/flink/formats/csv/CsvFileFormatFactory.java:172-184 | A file opened below the cap extends the sample by its first lines, up to the cap. |
| `RowCountEstimator.SampleLinesStep` | flink-formats/flink-csv/src/main/java/org/apache/flink/formats/csv/CsvFileFormatFactory.java:179-184 | The sample of the lines so far plus one file's lines is the old sample plus that file's first `min(cap - before, lines)` lines. |
| `RowCountEstimator.SampleFileAfterCap` | flink-formats/flink-csv/src/main/java/org/apache/flink/formats/csv/CsvFileFormatFactory.java:172 | A file met once the cap is reached leaves the sampled count and the sampled size unchanged. |
| `RowCountEstimator.PrefixStep` | flink-formats/flink-csv/src/main/java/org/apache/flink/formats/csv/CsvFileFormatFactory.java:166-187 | Shows how the lines, the total and the failure condition grow by one file. |
| `RowCountEstimator.FailsExtends` | flink-formats/flink-csv/src/main/java/org/apache/flink/formats/csv/CsvFileFormatFactory.java:162-202 | An exception on a prefix of the list is an exception on the whole list, because nothing after it runs. |
| `RowCountEstimator.StatFailureGivesUnknown` | flink-formats/flink-csv/src/main/java/org/apache/flink/formats/csv/CsvFileFormatFactory.java:167-169 | A failed status request anywhere in the list gives UNKNOWN, never a partial result. |
| `RowCountEstimator.OpenFailureBeforeCapGivesUnknown` | flink-formats/flink-csv/src/main/java/org/apache/flink/formats/csv/CsvFileFormatFactory.java:172-177 | A file that fails to open while the cap is not reached gives UNKNOWN. |
| `RowCountEstimator.SampleBytesAppend` | flink-formats/flink-csv/src/main/java/org/apache/flink/formats/csv/CsvFileFormatFactory.java:182-183 | The sampled size of consecutive runs of lines adds up. |
| `RowCountEstimator.AllLinesAppend` | flink-formats/flink-csv/src/main/java/org/apache/flink/formats/csv/CsvFileFormatFactory.java:166-184 | The lines of a concatenation of file lists are the concatenation of their lines. |
| `RowCountEstimator.TotalLengthAppend` | flink-formats/flink-csv/src/main/java/org/apache/flink/formats/csv/CsvFileFormatFactory.java:166-169 | The total size of a concatenation of file lists is the sum of their totals. |
| `RowCountEstimator.TotalLengthIgnoresReads` | flink-formats/flink-csv/src/main/java/org/apache/flink/formats/csv/CsvFileFormatFactory.java:166-169 | The total size depends only on the file lengths, never on what reading gives. So it counts files visited after the cap too. |
| `RowCountEstimator.FailsAfterCap` | flink-formats/flink-csv/src/main/java/org/apache/flink/formats/csv/CsvFileFormatFactory.java:166-172 | Once the cap is reached, only a failed status request can still make the list fail. |
| `RowCountEstimator.CapStopsReading` | flink-formats/flink-csv/src/main/java/org/apache/flink/formats/csv/CsvFileFormatFactory.java:172-181 | Once earlier files hold 100 lines, the estimate does not depend on what reading the later files would give. No later file is opened and no later line is read. |
| `RowCountEstimator.SampleAfterCap` | flink-formats/flink-csv/src/main/java/org/apache/flink/formats/csv/CsvFileFormatFactory.java:179-181 | Files appended after the cap leave the sampled count at 100 and the sampled size unchanged. |
| `RowCountEstimator.SameStatsSameFailures` | flink-formats/flink-csv/src/main/java/org/apache/flink/formats/csv/CsvFileFormatFactory.java:167-168 | Two lists with the same status outcomes have a failed status request in the same cases. |
| `RowCountEstimator.EstimateCongruence` | flink-formats/flink-csv/src/main/java/org/apache/flink/formats/csv/CsvFileFormatFactory.java:191-200 | The estimate depends only on four things: whether the list fails, the total size, the sampled count and the sampled size. |
| `RowCountEstimator.SampleCountCapped` | flink-formats/flink-csv/src/main/java/org/apache/flink/formats/csv/CsvFileFormatFactory.java:179-181 | At most 100 lines are sampled, and exactly 100 when the files hold that many. Below the cap, every line is sampled. |
| `RowCountEstimator.SampleBytesIsSumPlusCount` | flink-formats/flink-csv/src/main/java/org/apache/flink/formats/csv/CsvFileFormatFactory.java:181-183 | The sampled size is the sum of the lines' UTF-8 lengths plus exactly one per line. |
| `RowCountEstimator.SumSnoc` | flink-formats/flink-csv/src/main/java/org/apache/flink/formats/csv/CsvFileFormatFactory.java:182-183 | Adding one line adds exactly its length to the sum of line lengths. |
| `RowCountEstimator.SampleBytesAtLeastCount` | flink-formats/flink-csv/src/main/java/org/apache/flink/formats/csv/CsvFileFormatFactory.java:182-183 | Each sampled line counts at least one byte. |
| `RowCountEstimator.SampleBytesUniform` | flink-formats/flink-csv/src/main/java/org/apache/flink/formats/csv/CsvFileFormatFactory.java:182-183 | Lines that all have length `x` sample `x + 1` bytes each. |
| `RowCountEstimator.CapHitSizePositive` | flink-formats/flink-csv/src/main/java/org/apache/flink/formats/csv/CsvFileFormatFactory.java:194-196 | When the cap is hit, the sampled size is at least 100, so the division is defined. |
| `RowCountEstimator.EstimateBounds` | flink-formats/flink-csv/src/main/java/org/apache/flink/formats/csv/CsvFileFormatFactory.java:198-200 | A reported estimate is never negative. When the cap was hit, it is at most the total size. |
| `RowCountEstimator.ExtrapolateBounds` | flink-formats/flink-csv/src/main/java/org/apache/flink/formats/csv/CsvFileFormatFactory.java:199 | `total * cnt / size` is non-negative, and at most `total` when `cnt <= size`. |
| `RowCountEstimator.SmallSampleIsExact` | flink-formats/flink-csv/src/main/java/org/apache/flink/formats/csv/CsvFileFormatFactory.java:189-199 | Fewer than 100 lines and a positive total: the sampled size becomes the total, and the estimate is exactly the number of lines. |
| `RowCountEstimator.FortyLineFileEstimate` | flink-formats/flink-csv/src/main/java/org/apache/flink/formats/csv/CsvFileFormatFactory.java:189-199 | One 360-byte file of 40 lines of 9 bytes each, terminators included, gives an estimate of 40. |
| `RowCountEstimator.ThreeFilesStopAtCap` | flink-formats/flink-csv/src/main/java/org/apache/flink/formats/csv/CsvFileFormatFactory.java:179-199 | Three such files sample exactly 100 lines and estimate 1080 * 100 / 900 = 120 rows. |
| `RowCountEstimator.ThreeFilesClosedForms` | flink-formats/flink-csv/src/main/java/org/apache/flink/formats/csv/CsvFileFormatFactory.java:166-184 | Three such files do not fail, hold all 120 lines and total 1080 bytes. |
| `RowCountEstimator.NoFilesGivesUnknown` | flink-formats/flink-csv/src/main/java/org/apache/flink/formats/csv/CsvFileFormatFactory.java:191-196 | An empty file list gives UNKNOWN, not a division by zero. |
| `RowCountEstimator.EmptyFilesGiveUnknown` | flink-formats/flink-csv/src/main/java/org/apache/flink/formats/csv/CsvFileFormatFactory.java:191-196 | A list of zero-length files without lines gives UNKNOWN, not a count of zero. |
| `RowCountEstimator.EmptyFilesHaveNothing` | flink-formats/flink-csv/src/main/java/org/apache/flink/formats/csv/CsvFileFormatFactory.java:166-184 | Zero-length files without lines add nothing to the total and nothing to the lines. |
| `JavaText.EncodeChar` | flink-formats/flink-csv/src/main/java/org/apache/flink/formats/csv/CsvFileFormatFactory.java:244-262 | A character up to U+FFFF is one code unit that is not a surrogate. A character above it is a high surrogate followed by a low surrogate, and that pair decodes back to the character. |
| `JavaText.Utf16` | flink-formats/flink-csv/src/main/java/org/apache/flink/formats/csv/CsvFileFormatFactory.java:244-262 | A text takes at least one code unit per character. |
| `JavaText.Utf16Bmp` | flink-formats/flink-csv/src/main/java/org/apache/flink/formats/csv/CsvFileFormatFactory.java:244-262 | Text made only of characters up to U+FFFF has exactly one code unit per character, equal to it. |
| `JavaText.SupplementaryStartsWithHighSurrogate` | flink-formats/flink-csv/src/main/java/org/apache/flink/formats/csv/CsvFileFormatFactory.java:244-262 | Text that starts above U+FFFF starts with a high surrogate, which differs from the character itself. |
| `JavaUnescape.DigitsValueBound` | flink-formats/flink-csv/src/main/java/org/apache/flink/formats/csv/CsvFileFormatFactory.java:244 | `n` digits in base `radix` spell a number below `radix^n`. So four hex digits always fit a `char`. |
| `JavaUnescape.OctalDigitCount` | flink-formats/flink-csv/src/main/java/org/apache/flink/formats/csv/CsvFileFormatFactory.java:244 | An octal escape takes one to three digits, and three only when the first is 0-3. |
| `JavaUnescape.OctalEscapeValue` | flink-formats/flink-csv/src/main/java/org/apache/flink/formats/csv/CsvFileFormatFactory.java:244 | An octal escape never exceeds `\377` (255). |
| `JavaUnescape.ParseUnicodeDigits` | flink-formats/flink-csv/src/main/java/org/apache/flink/formats/csv/CsvFileFormatFactory.java:244 | The four units of a unicode escape parse exactly when they are four hex digits, or a sign followed by three hex digits. Otherwise it throws "unable to parse". Four hex digits give their base-16 value. |
| `JavaUnescape.Unescape` | flink-formats/flink-csv/src/main/java/org/apache/flink/formats/csv/CsvFileFormatFactory.java:244 | A successful unescaping is never longer than its input. |
| `JavaUnescape.UnescapeCopies` | flink-formats/flink-csv/src/main/java/org/apache/flink/formats/csv/CsvFileFormatFactory.java:244 | A unit that is not a backslash is copied in front of the unescaping of the rest. The whole throws exactly when the rest does. |
| `JavaUnescape.UnescapeSimpleEscape` | flink-formats/flink-csv/src/main/java/org/apache/flink/formats/csv/CsvFileFormatFactory.java:244 | `\b \t \n \f \r \\ \" \'` translate to one unit in front of the unescaping of the rest. The unit is looked up in `SimpleEscape`, the table of the library's control-escape and quote lookups. |
| `JavaUnescape.UnescapeDropsLoneBackslash` | flink-formats/flink-csv/src/main/java/org/apache/flink/formats/csv/CsvFileFormatFactory.java:244 | A backslash that starts no escape, including a trailing one, is dropped. |
| `JavaUnescape.UnescapeOctal` | flink-formats/flink-csv/src/main/java/org/apache/flink/formats/csv/CsvFileFormatFactory.java:244 | An octal escape translates to one unit in front of the unescaping of the rest. |
| `JavaUnescape.UnescapeUnicode` | flink-formats/flink-csv/src/main/java/org/apache/flink/formats/csv/CsvFileFormatFactory.java:244 | A unicode escape throws "truncated" when fewer than four units follow its `u`s and `+`, and throws "unable to parse" when they do not parse. Otherwise it translates to one unit in front of the rest. |
| `JavaUnescape.UnescapePlainPrefix` | flink-formats/flink-csv/src/main/java/org/apache/flink/formats/csv/CsvFileFormatFactory.java:244 | Text before the first backslash is copied, and it does not change whether, or how, unescaping throws. |
| `JavaUnescape.UnescapePlain` | flink-formats/flink-csv/src/main/java/org/apache/flink/formats/csv/CsvFileFormatFactory.java:244 | A delimiter without backslashes is its own unescaping, and never throws. |
| `JavaUnescape.UnescapeHead` | flink-formats/flink-csv/src/main/java/org/apache/flink/formats/csv/CsvFileFormatFactory.java:244 | A successful unescaping of a delimiter that does not start with a backslash starts with that delimiter's first unit. |
| `JavaUnescape.UnescapeEscapedHead` | flink-formats/flink-csv/src/main/java/org/apache/flink/formats/csv/CsvFileFormatFactory.java:244 | A successful unescaping that starts with a backslash followed by neither an octal digit nor `u` starts with the escaped unit. When the backslash is dropped, it starts with that following unit. |
| `JavaUnescape.UnescapeOctalHead` | flink-formats/flink-csv/src/main/java/org/apache/flink/formats/csv/CsvFileFormatFactory.java:244 | A successful unescaping that starts with an octal escape starts with the base-8 value of its digits, at most 255. |
| `JavaUnescape.TruncatedUnicodeEscapeFails` | flink-formats/flink-csv/src/main/java/org/apache/flink/formats/csv/CsvFileFormatFactory.java:244 | `\u` followed by fewer than four units throws "truncated". |
| `JavaUnescape.UnescapeEmpty` | flink-formats/flink-csv/src/main/java/org/apache/flink/formats/csv/CsvFileFormatFactory.java:244 | Unescaping succeeds with the empty string exactly for the empty string and a lone backslash. These are the two delimiters on which `charAt(0)` throws. |
| `JavaUnescape.UnescapeTab` | flink-formats/flink-csv/src/main/java/org/apache/flink/formats/csv/CsvFileFormatFactory.java:244 | A configured `\t` resolves to a real tab. |
| `JavaUnescape.UnescapeUnicodeTab` | flink-formats/flink-csv/src/main/java/org/apache/flink/formats/csv/CsvFileFormatFactory.java:244 | `\u0009` resolves to a tab. |
| `JavaUnescape.UnescapeUnicodeExtraU` | flink-formats/flink-csv/src/main/java/org/apache/flink/formats/csv/CsvFileFormatFactory.java:244 | `\uu+0009` resolves to a tab: the extra `u` and the `+` are skipped. |
| `JavaUnescape.UnescapeSignedUnicode` | flink-formats/flink-csv/src/main/java/org/apache/flink/formats/csv/CsvFileFormatFactory.java:244 | `\u-001` resolves to U+FFFF, because `parseInt` reads the sign and the cast to `char` wraps around. |
| `JavaUnescape.UnescapeOctalNul` | flink-formats/flink-csv/src/main/java/org/apache/flink/formats/csv/CsvFileFormatFactory.java:244 | `\0` resolves to NUL. |
| `JavaUnescape.UnescapeOctalThreeDigits` | flink-formats/flink-csv/src/main/java/org/apache/flink/formats/csv/CsvFileFormatFactory.java:244 | `\101` resolves to `A`. |
| `JavaUnescape.UnescapeOctalTwoDigits` | flink-formats/flink-csv/src/main/java/org/apache/flink/formats/csv/CsvFileFormatFactory.java:244 | `\400` resolves to a space followed by `0`, because an escape starting with 4 takes only two digits. |
| `JavaUnescape.UnescapeDropsBackslash` | flink-formats/flink-csv/src/main/java/org/apache/flink/formats/csv/CsvFileFormatFactory.java:244 | `\x` resolves to `x`. |
| `CsvSchemaBuilder.CharAt0` | flink-formats/flink-csv/src/main/java/org/apache/flink/formats/csv/CsvFileFormatFactory.java:244 | `charAt(0)` succeeds exactly on a non-empty string and gives its first UTF-16 code unit. Otherwise it throws the given error. |
| `CsvSchemaBuilder.ApplyFieldDelimiter` | flink-formats/flink-csv/src/main/java/org/apache/flink/formats/csv/CsvFileFormatFactory.java:243-245 | A present delimiter sets the column separator to the first unit of its unescaping. When unescaping throws, that exception is reported. When the unescaping is empty, `charAt(0)` throws. An absent delimiter changes nothing. |
| `CsvSchemaBuilder.ApplyQuote` | flink-formats/flink-csv/src/main/java/org/apache/flink/formats/csv/CsvFileFormatFactory.java:247-253 | Disabled quoting clears the quote character. Otherwise a present quote option sets it to its first character, and throws when the option is empty. |
| `CsvSchemaBuilder.ApplyEscape` | flink-formats/flink-csv/src/main/java/org/apache/flink/formats/csv/CsvFileFormatFactory.java:260-262 | A present escape option sets the escape character to its first character, and throws when the option is empty. |
| `CsvSchemaBuilder.BuildCsvSchema` | flink-formats/flink-csv/src/main/java/org/apache/flink/formats/csv/CsvFileFormatFactory.java:239-267 | Compilation fails exactly when the delimiter's unescaping throws or is empty, or, when quoting is not disabled, the quote option is empty, or the escape option is empty. The exception thrown first is reported. Otherwise each field is set by its own option or keeps the base value, and the columns are never changed. |
| `CsvSchemaBuilder.NoOptionsKeepBase` | flink-formats/flink-csv/src/main/java/org/apache/flink/formats/csv/CsvFileFormatFactory.java:239-266 | With no option set, the compiled schema is the base schema. |
| `CsvSchemaBuilder.QuotingDisabledIgnoresQuoteCharacter` | flink-formats/flink-csv/src/main/java/org/apache/flink/formats/csv/CsvFileFormatFactory.java:247-253 | With quoting disabled, the quote option has no effect, even an empty one. Quoting is then off. |
| `CsvSchemaBuilder.BuildIdempotent` | flink-formats/flink-csv/src/main/java/org/apache/flink/formats/csv/CsvFileFormatFactory.java:239-266 | Applying the same options to a compiled schema changes nothing. |
| `CsvSchemaBuilder.NullLiteralIsLocal` | flink-formats/flink-csv/src/main/java/org/apache/flink/formats/csv/CsvFileFormatFactory.java:264 | Setting the null literal changes the null value and nothing else. |
| `CsvSchemaBuilder.PlainFieldDelimiter` | flink-formats/flink-csv/src/main/java/org/apache/flink/formats/csv/CsvFileFormatFactory.java:243-245 | A plain, non-empty delimiter sets the separator to its first character and changes nothing else. |
| `CsvSchemaBuilder.TabFieldDelimiter` | flink-formats/flink-csv/src/main/java/org/apache/flink/formats/csv/CsvFileFormatFactory.java:243-245 | A configured backslash followed by `t` compiles to a tab separator, with every other field from the base. |
| `CsvSchemaBuilder.UnicodeTabFieldDelimiter` | flink-formats/flink-csv/src/main/java/org/apache/flink/formats/csv/CsvFileFormatFactory.java:243-245 | A configured `\u0009` compiles to a tab separator, with every other field from the base. |
| `CsvSchemaBuilder.TruncatedUnicodeDelimiterFails` | flink-formats/flink-csv/src/main/java/org/apache/flink/formats/csv/CsvFileFormatFactory.java:243-245 | The delimiter `;\u12` makes compilation throw the truncated-escape exception, whatever the other options are, even though `;` alone would be a valid separator. |
| `CsvSchemaBuilder.EmptyDelimiterFails` | flink-formats/flink-csv/src/main/java/org/apache/flink/formats/csv/CsvFileFormatFactory.java:243-245 | An empty delimiter, or a lone backslash, makes compilation throw, whatever the other options are. |
| `CsvSchemaBuilder.SupplementaryQuoteTakesHighSurrogate` | flink-formats/flink-csv/src/main/java/org/apache/flink/formats/csv/CsvFileFormatFactory.java:250-252 | A quote option holding U+1F600 sets the quote character to its high surrogate 0xD83D. |
| `CsvSchemaBuilder.CreateRuntimeDecoder` | flink-formats/flink-csv/src/main/java/org/apache/flink/formats/csv/CsvFileFormatFactory.java:127-138 | The decoder's schema is compiled from the full physical row type's base, whatever the projection. Within the model, construction fails exactly when compilation does, with the same error; the exceptions of the projection and of the converters are not modelled. Parse errors are ignored exactly when the option is present. |
| `CsvSchemaBuilder.IgnoreParseErrorsFalseStillIgnores` | flink-formats/flink-csv/src/main/java/org/apache/flink/formats/csv/CsvFileFormatFactory.java:133-134 | `ignore-parse-errors = false` still switches lenient decoding on. |

## Left out

- File system and stream I/O are not modelled. These calls become the abstract file
  records: `FileSystem.get`, `getFileStatus`, `Files.newInputStream`,
  `BufferedReader.readLine`.
- A failure of `FileSystem.get` counts as a failed status request. A path that is not a
  local file (`new File(uri)` throws) counts as a failure to open.
- An exception thrown while closing a reader is not modelled.
- Decoding bytes into characters, and `readLine`'s line-terminator rules, are not
  modelled. A line is given by its UTF-8 byte length.
- Java `int` and `long` arithmetic is not modelled. In particular, the model ignores
  overflow of `totalFileSize * realSampledLineCnt`, because it uses unbounded integers.
- `JavaUnescape.ParseUnicodeDigits`: only ASCII `0-9`, `a-f` and `A-F` count as hex
  digits. Java's `Integer.parseInt` also accepts other Unicode decimal digits and
  fullwidth Latin letters. So a unicode escape written with those throws in the model,
  while Java decodes it.
- Several parts are taken as inputs or are not part of this model:
  - `CsvRowSchemaConverter.convert`, which is taken as the base schema;
  - Jackson's `CsvSchema` and `CsvMapper` internals;
  - `Projection.of`, whose projections are passed through unchanged. The exception it
    throws on an invalid projection is not modelled.
- Not part of this model: `CsvToRowDataConverters`, `RowDataToCsvConverters`,
  `CsvReaderFormat`, `CsvBulkWriter` and `StreamFormatAdapter`. As a result, row
  encoding and decoding, and their round trip, are not modelled.
- Wiring without logic is not modelled: `factoryIdentifier`, `requiredOptions`,
  `optionalOptions`, `forwardOptions`, `getChangelogMode`, `createDecodingFormat`, and
  the encoder in `createEncodingFormat`. The encoder compiles its schema with the same
  `buildCsvSchema`.
- The default of `disable-quote-character` (false) comes from `CsvFormatOptions`, which
  is not part of this model. The model reads an unset option as `false`.
