/**
 * Compilation of the CSV format options into a parse/write schema
 * (`CsvFileFormatFactory.buildCsvSchema`) and the decoder settings derived from
 * the same options (`CsvBulkDecodingFormat.createRuntimeDecoder`).
 *
 * The base schema comes from the row-type conversion (`CsvRowSchemaConverter.convert`),
 * which is not part of this model: it is taken as an input. Each present option then
 * overrides one field of it; every absent option leaves that field as it was.
 */
module CsvSchemaBuilder {
  import opened Wrappers
  import opened JavaText
  import opened JavaUnescape

  /**
   * The compiled schema: the columns plus the resolved formatting settings. The columns
   * come from the row-type conversion and are only ever carried through, so they are
   * kept as their names in order. Characters are Java `char`s, that is UTF-16 code units.
   */
  datatype CsvSchema = CsvSchema(
    columns: seq<JavaString>,
    columnSeparator: CodeUnit,
    quoteChar: Option<CodeUnit>,        // None: quoting disabled
    allowComments: bool,
    arrayElementSeparator: JavaString,
    escapeChar: Option<CodeUnit>,       // None: no escape character
    nullValue: Option<JavaString>)      // None: no null literal

  /** The format options as read from the table configuration; None = option not set. */
  datatype FormatOptions = FormatOptions(
    fieldDelimiter: Option<JavaString>,
    disableQuoteCharacter: Option<bool>,
    quoteCharacter: Option<JavaString>,
    allowComments: Option<bool>,
    arrayElementDelimiter: Option<JavaString>,
    escapeCharacter: Option<JavaString>,
    nullLiteral: Option<JavaString>,
    ignoreParseErrors: Option<bool>)

  /**
   * The exceptions compilation can throw: unescaping the field delimiter can fail, and
   * `charAt(0)` on an empty string throws for each option that takes a first character.
   */
  datatype SchemaError =
    | InvalidFieldDelimiter(cause: UnescapeError)
    | EmptyFieldDelimiter
    | EmptyQuoteCharacter
    | EmptyEscapeCharacter

  /** Configuration with no option set. */
  const NoOptions := FormatOptions(None, None, None, None, None, None, None, None)

  /** `disable-quote-character` is read with `get`, i.e. with its default `false`. */
  predicate QuotingDisabled(options: FormatOptions) {
    options.disableQuoteCharacter.GetOr(false)
  }

  /** `s.charAt(0)`, which throws `error` on the empty string. */
  function CharAt0(s: JavaString, error: SchemaError): (r: Result<CodeUnit, SchemaError>)
    ensures r.Success? <==> |s| > 0
    ensures r.Success? ==> r.value == s[0]
    ensures r.Failure? ==> r.error == error
  {
    if |s| == 0 then Failure(error) else Success(s[0])
  }

  // One builder step per option, in the order of the source.

  /** The exception the field delimiter `d` makes compilation throw, if any. */
  function DelimiterError(d: JavaString): Option<SchemaError> {
    if Unescape(d).Failure? then Some(InvalidFieldDelimiter(Unescape(d).error))
    else if Unescape(d).value == [] then Some(EmptyFieldDelimiter)
    else None
  }

  function ApplyFieldDelimiter(b: CsvSchema, delimiter: Option<JavaString>): (r: Result<CsvSchema, SchemaError>)
    ensures r.Failure? <==> delimiter.Some? && (Unescape(delimiter.value).Failure? || Unescape(delimiter.value).value == [])
    ensures r.Failure? && Unescape(delimiter.value).Failure? ==>
      r.error == InvalidFieldDelimiter(Unescape(delimiter.value).error)
    ensures r.Failure? && Unescape(delimiter.value).Success? ==> r.error == EmptyFieldDelimiter
    ensures r.Success? && delimiter.None? ==> r.value == b
    ensures r.Success? && delimiter.Some? ==> r.value == b.(columnSeparator := Unescape(delimiter.value).value[0])
  {
    match delimiter
    case None => Success(b)
    case Some(d) =>
      match Unescape(d)
      case Failure(e) => Failure(InvalidFieldDelimiter(e))
      case Success(u) =>
        var c :- CharAt0(u, EmptyFieldDelimiter);
        Success(b.(columnSeparator := c))
  }

  function ApplyQuote(b: CsvSchema, options: FormatOptions): (r: Result<CsvSchema, SchemaError>)
    ensures r.Failure? <==> !QuotingDisabled(options) && options.quoteCharacter == Some([])
    ensures r.Failure? ==> r.error == EmptyQuoteCharacter
    ensures r.Success? ==> r.value == b.(quoteChar :=
      if QuotingDisabled(options) then None
      else if options.quoteCharacter.Some? then Some(options.quoteCharacter.value[0])
      else b.quoteChar)
  {
    if QuotingDisabled(options) then Success(b.(quoteChar := None))
    else match options.quoteCharacter
      case None => Success(b)
      case Some(q) =>
        var c :- CharAt0(q, EmptyQuoteCharacter);
        Success(b.(quoteChar := Some(c)))
  }

  function ApplyEscape(b: CsvSchema, escape: Option<JavaString>): (r: Result<CsvSchema, SchemaError>)
    ensures r.Failure? <==> escape == Some([])
    ensures r.Failure? ==> r.error == EmptyEscapeCharacter
    ensures r.Success? ==> r.value == if escape.Some? then b.(escapeChar := Some(escape.value[0])) else b
  {
    match escape
    case None => Success(b)
    case Some(e) =>
      var c :- CharAt0(e, EmptyEscapeCharacter);
      Success(b.(escapeChar := Some(c)))
  }

  /** The error `BuildCsvSchema` throws first, if any, in the order the options are read. */
  function FirstError(options: FormatOptions): Option<SchemaError> {
    if options.fieldDelimiter.Some? && DelimiterError(options.fieldDelimiter.value).Some? then
      DelimiterError(options.fieldDelimiter.value)
    else if !QuotingDisabled(options) && options.quoteCharacter == Some([]) then Some(EmptyQuoteCharacter)
    else if options.escapeCharacter == Some([]) then Some(EmptyEscapeCharacter)
    else None
  }

  /**
   * Rebuilds `base` with the configured options applied one after another.
   * Every field is overridden by its own option only; the columns are never touched.
   */
  function BuildCsvSchema(base: CsvSchema, options: FormatOptions): (r: Result<CsvSchema, SchemaError>)
    ensures r.Failure? <==> FirstError(options).Some?
    ensures r.Failure? ==> r.error == FirstError(options).value
    ensures r.Success? ==>
      && r.value.columns == base.columns
      && r.value.columnSeparator ==
           (if options.fieldDelimiter.Some? then Unescape(options.fieldDelimiter.value).value[0] else base.columnSeparator)
      && r.value.quoteChar ==
           (if QuotingDisabled(options) then None
            else if options.quoteCharacter.Some? then Some(options.quoteCharacter.value[0])
            else base.quoteChar)
      && r.value.allowComments == options.allowComments.GetOr(base.allowComments)
      && r.value.arrayElementSeparator == options.arrayElementDelimiter.GetOr(base.arrayElementSeparator)
      && r.value.escapeChar ==
           (if options.escapeCharacter.Some? then Some(options.escapeCharacter.value[0]) else base.escapeChar)
      && r.value.nullValue ==
           (if options.nullLiteral.Some? then Some(options.nullLiteral.value) else base.nullValue)
  {
    var b1 :- ApplyFieldDelimiter(base, options.fieldDelimiter);
    var b2 :- ApplyQuote(b1, options);
    var b3 := b2.(allowComments := options.allowComments.GetOr(b2.allowComments));
    var b4 := b3.(arrayElementSeparator := options.arrayElementDelimiter.GetOr(b3.arrayElementSeparator));
    var b5 :- ApplyEscape(b4, options.escapeCharacter);
    var b6 := if options.nullLiteral.Some? then b5.(nullValue := Some(options.nullLiteral.value)) else b5;
    Success(b6)
  }

  /** With no option set, the compiled schema is the base schema. */
  lemma NoOptionsKeepBase(base: CsvSchema)
    ensures BuildCsvSchema(base, NoOptions) == Success(base)
  {
  }

  /** When quoting is disabled, the quote character option has no effect at all. */
  lemma QuotingDisabledIgnoresQuoteCharacter(base: CsvSchema, options: FormatOptions, quote: Option<JavaString>)
    requires QuotingDisabled(options)
    ensures BuildCsvSchema(base, options.(quoteCharacter := quote)) == BuildCsvSchema(base, options)
    ensures BuildCsvSchema(base, options).Success? ==> BuildCsvSchema(base, options).value.quoteChar == None
  {
  }

  /**
   * Compilation is idempotent: applying the same options to a compiled schema
   * changes nothing, because each option sets its field to a fixed value.
   */
  lemma BuildIdempotent(base: CsvSchema, options: FormatOptions)
    requires BuildCsvSchema(base, options).Success?
    ensures BuildCsvSchema(BuildCsvSchema(base, options).value, options) == BuildCsvSchema(base, options)
  {
  }

  /**
   * Locality: two configurations that differ only in the null literal compile to
   * schemas that differ only in the null value.
   */
  lemma NullLiteralIsLocal(base: CsvSchema, options: FormatOptions, literal: JavaString)
    requires BuildCsvSchema(base, options).Success?
    ensures BuildCsvSchema(base, options.(nullLiteral := Some(literal)))
         == Success(BuildCsvSchema(base, options).value.(nullValue := Some(literal)))
  {
  }

  /** A plain (backslash-free) field delimiter sets the separator to its first character. */
  lemma PlainFieldDelimiter(base: CsvSchema, options: FormatOptions, d: JavaString)
    requires |d| > 0 && Backslash !in d
    requires BuildCsvSchema(base, options).Success?
    ensures BuildCsvSchema(base, options.(fieldDelimiter := Some(d)))
         == Success(BuildCsvSchema(base, options).value.(columnSeparator := d[0]))
  {
    UnescapePlain(d);
  }

  /** A configured `\t` makes the separator a tab, and nothing else changes. */
  lemma TabFieldDelimiter(base: CsvSchema)
    ensures BuildCsvSchema(base, NoOptions.(fieldDelimiter := Some(Utf16("\\t"))))
         == Success(base.(columnSeparator := 0x09))
  {
    UnescapeTab();
  }

  /** So does a configured `\u0009`. */
  lemma UnicodeTabFieldDelimiter(base: CsvSchema)
    ensures BuildCsvSchema(base, NoOptions.(fieldDelimiter := Some(Utf16("\\u0009"))))
         == Success(base.(columnSeparator := 0x09))
  {
    UnescapeUnicodeTab();
  }

  /**
   * A delimiter with a truncated unicode escape anywhere in it makes compilation throw,
   * even though its first character alone would be a valid separator.
   */
  lemma TruncatedUnicodeDelimiterFails(base: CsvSchema, options: FormatOptions)
    ensures BuildCsvSchema(base, options.(fieldDelimiter := Some(Utf16(";\\u12"))))
         == Failure(InvalidFieldDelimiter(TruncatedUnicodeEscape))
  {
    var d := Utf16(";\\u12");
    var tail := Utf16("\\u12");
    assert d == [';' as int] + tail;
    assert tail == [Backslash, 'u' as int] + ['1' as int, '2' as int];
    TruncatedUnicodeEscapeFails(['1' as int, '2' as int]);
    UnescapePlainPrefix([';' as int], tail);
  }

  /** A field delimiter that unescapes to nothing (empty, or one backslash) fails compilation. */
  lemma EmptyDelimiterFails(base: CsvSchema, options: FormatOptions, d: JavaString)
    requires d == [] || d == [Backslash]
    ensures BuildCsvSchema(base, options.(fieldDelimiter := Some(d))) == Failure(EmptyFieldDelimiter)
  {
    UnescapeEmpty(d);
  }

  /**
   * `charAt(0)` takes one UTF-16 code unit: a quote option holding a character above
   * U+FFFF sets only its high surrogate as the quote character.
   */
  lemma SupplementaryQuoteTakesHighSurrogate(base: CsvSchema)
    ensures BuildCsvSchema(base, NoOptions.(quoteCharacter := Some(Utf16("\U{1F600}"))))
         == Success(base.(quoteChar := Some(0xD83D)))
  {
    assert Utf16("\U{1F600}")[0] == 0xD83D;
  }

  /** The settings a runtime decoder is built from. */
  datatype RuntimeDecoder = RuntimeDecoder(
    schema: CsvSchema,                  // built from the full physical row type
    projections: seq<seq<nat>>,         // handed to the row converter only
    ignoreParseErrors: bool)

  /**
   * Decoder construction: the schema is compiled from the physical row type's base
   * schema whatever the projection, and parse errors are ignored whenever the
   * option is present, whatever its value.
   */
  function CreateRuntimeDecoder(physicalBase: CsvSchema, projections: seq<seq<nat>>, options: FormatOptions)
    : (r: Result<RuntimeDecoder, SchemaError>)
    ensures r.Failure? <==> FirstError(options).Some?
    ensures r.Failure? ==> r.error == FirstError(options).value
    ensures r.Success? ==>
      && Success(r.value.schema) == BuildCsvSchema(physicalBase, options)
      && r.value.schema.columns == physicalBase.columns
      && r.value.projections == projections
      && (r.value.ignoreParseErrors <==> options.ignoreParseErrors.Some?)
  {
    var schema :- BuildCsvSchema(physicalBase, options);
    Success(RuntimeDecoder(schema, projections, options.ignoreParseErrors.Some?))
  }

  /** `ignore-parse-errors = false` still switches lenient decoding on. */
  lemma IgnoreParseErrorsFalseStillIgnores(physicalBase: CsvSchema, projections: seq<seq<nat>>, options: FormatOptions)
    requires options.ignoreParseErrors == Some(false)
    requires FirstError(options).None?
    ensures CreateRuntimeDecoder(physicalBase, projections, options).Success?
    ensures CreateRuntimeDecoder(physicalBase, projections, options).value.ignoreParseErrors
  {
  }
}
