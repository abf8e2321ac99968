/**
  Column definitions (Column.Build in clause/create/table.go), the compression
  rules of clause/create/options.go, and a parser for the printed definition.
 */
module Column {
  import opened Common
  import opened Ascii
  import opened Decimal
  import opened Identifier
  import opened Builder
  import opened Parsing

  datatype Column = Column(
    name: string,
    columnType: string,
    length: uint64,
    compositeKey: bool,
    encode: string,
    compress: string,
    level: string)

  // ------------------------------------------------------------------- types

  /** The type constants of the create package whose length is printed. */
  const SIZED := ["NCHAR", "BINARY", "VARCHAR", "VARBINARY", "GEOMETRY"]

  const WORDS := ["TIMESTAMP", "INT", "BIGINT", "FLOAT", "DOUBLE", "SMALLINT", "TINYINT", "BOOL", "JSON", "DECIMAL",
      "BLOB"]

  const UNSIGNED := ["TINYINT UNSIGNED", "SMALLINT UNSIGNED", "INT UNSIGNED", "BIGINT UNSIGNED"]

  /** compressionBaseType and baseDataType: the type name without its arguments. */
  function BaseType(dataType: string): string {
    TrimSpace(Before(Upper(TrimSpace(dataType)), '('))
  }

  /** The type name of a text, with or without arguments. */
  lemma BaseTypeOfText(text: string, arguments: string)
    requires |text| > 1 && '(' !in text && !IsSpace(text[0]) && !IsSpace(text[|text| - 1])
    requires arguments == "" || (arguments[0] == '(' && !IsSpace(arguments[|arguments| - 1]))
    ensures BaseType(text + arguments) == Upper(text)
    ensures Upper(TrimSpace(text + arguments))[0] == UpperByte(text[0])
  {
    hide TrimSpace, Before, Upper;
    UpperKeepsShape(text);
    Trimmed(text + arguments);
    UpperSplits(text, arguments);
    StopsBefore(Upper(text), Upper(arguments), '(');
    Trimmed(Upper(text));
  }

  lemma BaseTypeOfWord(word: string, arguments: string)
    requires |word| > 1 && forall c <- word :: IsLetter(c)
    requires arguments == "" || (arguments[0] == '(' && !IsSpace(arguments[|arguments| - 1]))
    ensures BaseType(word + arguments) == Upper(word)
    ensures Upper(TrimSpace(word + arguments))[0] == UpperByte(word[0])
  {
    hide BaseType, TrimSpace, Upper;
    LettersAreNoSpaces(word);
    BaseTypeOfText(word, arguments);
  }

  // ------------------------------------------------------------- compression

  const ENCODINGS := ["simple8b", "bit-packing", "delta-i", "delta-d", "disabled", "bss"]
  const COMPRESSIONS := ["lz4", "zlib", "zstd", "tsz", "xz", "disabled"]
  const LEVELS := ["high", "medium", "low"]

  predicate SupportsEncoding(dataType: string, encoding: string) {
    encoding == "disabled" ||
    if dataType in ["INT", "INT UNSIGNED", "TINYINT", "TINYINT UNSIGNED", "SMALLINT", "SMALLINT UNSIGNED"] then
      encoding == "simple8b"
    else if dataType in ["BIGINT", "BIGINT UNSIGNED", "TIMESTAMP"] then encoding in ["simple8b", "delta-i"]
    else if dataType in ["FLOAT", "DOUBLE"] then encoding in ["delta-d", "bss"]
    else dataType == "BOOL" && encoding == "bit-packing"
  }

  predicate SupportsCompression(dataType: string, compression: string) {
    || compression == "disabled"
    || (compression in ["lz4", "zlib", "zstd", "xz"] && dataType in [
          "TIMESTAMP", "BOOL", "TINYINT", "TINYINT UNSIGNED", "SMALLINT", "SMALLINT UNSIGNED", "INT", "INT UNSIGNED",
          "BIGINT", "BIGINT UNSIGNED", "FLOAT", "DOUBLE", "BINARY", "VARCHAR", "NCHAR", "DECIMAL"])
    || (compression == "tsz" && dataType in ["FLOAT", "DOUBLE"])
  }

  /** validateCompression returns nil. */
  predicate ValidCompression(c: Column) {
    && (c.encode != "" ==> c.encode in ENCODINGS)
    && (c.compress != "" ==> c.compress in COMPRESSIONS)
    && (c.level != "" ==> c.compress != "" && c.level in LEVELS)
    && (c.columnType != "" && c.encode != "" ==> SupportsEncoding(BaseType(c.columnType), c.encode))
    && (c.columnType != "" && c.compress != "" ==> SupportsCompression(BaseType(c.columnType), c.compress))
  }

  /** The encodings each declared type takes. */
  lemma EncodingsInWords(t: string, encoding: string)
    ensures SupportsEncoding(t, "disabled")
    ensures SupportsEncoding(t, "simple8b") <==> t in {
              "TINYINT", "SMALLINT", "INT", "BIGINT", "TIMESTAMP",
              "TINYINT UNSIGNED", "SMALLINT UNSIGNED", "INT UNSIGNED", "BIGINT UNSIGNED"}
    ensures SupportsEncoding(t, "delta-i") <==> t in {"BIGINT", "BIGINT UNSIGNED", "TIMESTAMP"}
    ensures SupportsEncoding(t, "delta-d") <==> t in {"FLOAT", "DOUBLE"}
    ensures SupportsEncoding(t, "bss") <==> t in {"FLOAT", "DOUBLE"}
    ensures SupportsEncoding(t, "bit-packing") <==> t == "BOOL"
    ensures SupportsEncoding(t, encoding) ==>
            encoding in {"disabled", "simple8b", "delta-i", "delta-d", "bss", "bit-packing"}
  {
  }

  /** The compressions each declared type takes. */
  lemma CompressionsInWords(t: string, compression: string)
    ensures SupportsCompression(t, "disabled")
    ensures compression in {"lz4", "zlib", "zstd", "xz"} ==>
            (SupportsCompression(t, compression) <==> t in {
              "TIMESTAMP", "BOOL", "TINYINT", "SMALLINT", "INT", "BIGINT", "TINYINT UNSIGNED", "SMALLINT UNSIGNED",
              "INT UNSIGNED", "BIGINT UNSIGNED", "FLOAT", "DOUBLE", "BINARY", "VARCHAR", "NCHAR", "DECIMAL"})
    ensures SupportsCompression(t, "tsz") <==> t in {"FLOAT", "DOUBLE"}
    ensures SupportsCompression(t, compression) ==>
            compression in {"disabled", "lz4", "zlib", "zstd", "xz", "tsz"}
  {
  }

  /** What validateCompression accepts: known settings, a level only with a compression, and a type that takes them. */
  lemma SettingsInWords(c: Column)
    ensures ValidCompression(c) <==>
            && c.encode in {"", "simple8b", "bit-packing", "delta-i", "delta-d", "disabled", "bss"}
            && c.compress in {"", "lz4", "zlib", "zstd", "tsz", "xz", "disabled"}
            && (c.level == "" || (c.compress != "" && c.level in {"high", "medium", "low"}))
            && (c.columnType == "" || c.encode == "" || SupportsEncoding(BaseType(c.columnType), c.encode))
            && (c.columnType == "" || c.compress == "" || SupportsCompression(BaseType(c.columnType), c.compress))
  {
    hide BaseType, SupportsEncoding, SupportsCompression;
  }

  // ----------------------------------------------------------------- printer

  function TypeSpec(c: Column): string {
    c.columnType + if c.columnType in SIZED then "(" + FormatUint(c.length) + ")" else ""
  }

  function KeyText(c: Column): string { if c.compositeKey then " COMPOSITE KEY" else "" }

  function Setting(keyword: string, value: string): string {
    if value == "" then "" else keyword + value + "'"
  }

  function SettingsText(c: Column): string {
    Setting(" ENCODE '", c.encode) + Setting(" COMPRESS '", c.compress) + Setting(" LEVEL '", c.level)
  }

  function ColumnText(c: Column): string {
    if !ValidCompression(c) then "" else
      Quote(c.name) + " " + TypeSpec(c) + KeyText(c) + SettingsText(c)
  }

  function ColumnErrors(c: Column): seq<BuildError> {
    if ValidCompression(c) then [] else [InvalidCompression]
  }

  method BuildColumn(b: Builder, c: Column)
    modifies b`text, b`errors
    ensures b.text == old(b.text) + ColumnText(c)
    ensures b.errors == old(b.errors) + ColumnErrors(c)
    ensures !ValidCompression(c) ==> b.text == old(b.text) && b.errors == old(b.errors) + [InvalidCompression]
    ensures ValidCompression(c) ==> b.errors == old(b.errors)
  {
    if !ValidCompression(c) {
      b.AddError(InvalidCompression);
      return;
    }
    hide ColumnErrors;
    b.WriteQuoted(c.name);
    b.WriteString(" ");
    WriteType(b, c);
    if c.compositeKey {
      b.WriteString(" COMPOSITE KEY");
    }
    WriteSettings(b, c);
    ColumnWritten(old(b.text), c);
  }

  method WriteSettings(b: Builder, c: Column)
    modifies b`text
    ensures b.text == old(b.text) + SettingsText(c)
  {
    WriteSetting(b, " ENCODE '", c.encode);
    WriteSetting(b, " COMPRESS '", c.compress);
    WriteSetting(b, " LEVEL '", c.level);
    Associates4(old(b.text), Setting(" ENCODE '", c.encode), Setting(" COMPRESS '", c.compress),
        Setting(" LEVEL '", c.level));
  }

  method WriteType(b: Builder, c: Column)
    modifies b`text
    ensures b.text == old(b.text) + TypeSpec(c)
  {
    b.WriteString(c.columnType);
    if c.columnType in SIZED {
      b.WriteString("(");
      b.WriteString(FormatUint(c.length));
      b.WriteString(")");
      Associates4(old(b.text) + c.columnType, "(", FormatUint(c.length), ")");
      Associates(old(b.text), c.columnType, "(" + FormatUint(c.length) + ")");
    }
  }

  method WriteSetting(b: Builder, keyword: string, value: string)
    modifies b`text
    ensures b.text == old(b.text) + Setting(keyword, value)
  {
    if value != "" {
      b.WriteString(keyword);
      b.WriteString(value);
      b.WriteString("'");
      Associates4(old(b.text), keyword, value, "'");
    }
  }

  lemma ColumnWritten(text: string, c: Column)
    requires ValidCompression(c)
    ensures text + Quote(c.name) + " " + TypeSpec(c) + (if c.compositeKey then " COMPOSITE KEY" else "")
        + SettingsText(c)
         == text + ColumnText(c)
    ensures !c.compositeKey ==> text + Quote(c.name) + " " + TypeSpec(c) + SettingsText(c) == text + ColumnText(c)
  {
    Associates5(text + Quote(c.name), " ", TypeSpec(c), KeyText(c), SettingsText(c));
    Associates5(Quote(c.name), " ", TypeSpec(c), KeyText(c), SettingsText(c));
    Associates(text, Quote(c.name), " " + (TypeSpec(c) + (KeyText(c) + SettingsText(c))));
    if !c.compositeKey {
      assert text + Quote(c.name) + " " + TypeSpec(c) + "" == text + Quote(c.name) + " " + TypeSpec(c);
    }
  }

  // ------------------------------------------------------------ type grammar

  /** A type name, its sign, and its arguments: all that DataTypeOf and the constants print. */
  datatype TypeParts = TypeParts(word: string, sign: string, arguments: Option<string>) {
    predicate Valid() {
      && word != "" && (forall c <- word :: IsLetter(c))
      && sign in ["", " UNSIGNED", " unsigned"]
      && (arguments.Some? ==> forall c <- arguments.value :: InArguments(c))
    }

    function ArgumentText(): string {
      if arguments.None? then "" else "(" + arguments.value + ")"
    }

    function Text(): string { word + sign + ArgumentText() }
  }

  predicate InArguments(c: char) { IsDigit(c) || c == ',' }

  predicate NotQuote(c: char) { c != '\'' }

  ghost predicate WellTyped(text: string) {
    exists parts: TypeParts :: parts.Valid() && parts.Text() == text
  }

  function ReadSign(s: string): (string, string) {
    if Eat(" UNSIGNED", s).Some? then (" UNSIGNED", Eat(" UNSIGNED", s).value)
    else if Eat(" unsigned", s).Some? then (" unsigned", Eat(" unsigned", s).value)
    else ("", s)
  }

  /** The printed type, arguments included. */
  function ReadType(s: string): (r: Option<(string, string)>)
    ensures r.Some? ==> |r.value.1| < |s|
  {
    var (word, afterWord) := Span(IsLetter, s);
    if word == "" then None else
      var (sign, afterSign) := ReadSign(afterWord);
      if Eat("(", afterSign).None? then Some((word + sign, afterSign)) else
        var (arguments, afterArguments) := Span(InArguments, Eat("(", afterSign).value);
        var rest := Eat(")", afterArguments);
        if rest.None? then None else Some((word + sign + "(" + arguments + ")", rest.value))
  }

  /** What may follow a type: the end, a separator, or one of the column options. */
  predicate EndsType(rest: string) {
    rest == "" || rest[0] in ",)" || (|rest| >= 2 && rest[0] == ' ' && rest[1] in "CEL")
  }

  lemma ReadsSign(sign: string, rest: string)
    requires sign in ["", " UNSIGNED", " unsigned"]
    requires rest == "" || rest[0] == '(' || EndsType(rest)
    ensures ReadSign(sign + rest) == (sign, rest)
  {
    if sign == "" {
      assert sign + rest == rest;
      EatsNot(" UNSIGNED", rest, if rest != "" && rest[0] == ' ' then 1 else 0);
      EatsNot(" unsigned", rest, if rest != "" && rest[0] == ' ' then 1 else 0);
    } else {
      Eats(sign, rest);
      if sign == " unsigned" {
        EatsNot(" UNSIGNED", sign + rest, 1);
      }
    }
  }

  lemma ReadsType(parts: TypeParts, rest: string)
    requires parts.Valid() && EndsType(rest)
    ensures ReadType(parts.Text() + rest) == Some((parts.Text(), rest))
  {
    var afterSign := parts.ArgumentText() + rest;
    Associates4(parts.word, parts.sign, parts.ArgumentText(), rest);
    var s := parts.word + (parts.sign + afterSign);
    assert parts.Text() + rest == s;
    assert afterSign == "" || afterSign[0] == '(' || EndsType(afterSign) by {
      if parts.arguments.None? {
        assert afterSign == rest;
      }
    }
    assert parts.sign + afterSign == "" || !IsLetter((parts.sign + afterSign)[0]);
    SpanStops(IsLetter, parts.word, parts.sign + afterSign);
    ReadsSign(parts.sign, afterSign);
    if parts.arguments.None? {
      assert afterSign == rest;
      EatsNot("(", rest, 0);
      assert parts.Text() == parts.word + parts.sign;
    } else {
      var arguments := parts.arguments.value;
      Associates4("(", arguments, ")", rest);
      Eats("(", arguments + (")" + rest));
      SpanStops(InArguments, arguments, ")" + rest);
      Eats(")", rest);
      Associates4(parts.word + parts.sign, "(", arguments, ")");
    }
  }

  /** Splits a printed type back into a sized constant and its length. */
  function DecodeSpec(spec: string): (string, uint64) {
    var (word, rest) := Span(IsLetter, spec);
    if word in SIZED && |rest| >= 2 && rest[0] == '(' && rest[|rest| - 1] == ')'
       && ParseUint(rest[1..|rest| - 1]).Some?
    then (word, ParseUint(rest[1..|rest| - 1]).value)
    else (spec, 0)
  }

  // ------------------------------------------------------------------ parser

  function ReadSetting(keyword: string, s: string): (r: Option<(string, string)>)
    ensures r.Some? ==> |r.value.1| <= |s|
  {
    var after := Eat(keyword, s);
    if after.None? then Some(("", s)) else
      var (value, afterValue) := Span(NotQuote, after.value);
      var rest := Eat("'", afterValue);
      if rest.None? then None else Some((value, rest.value))
  }

  function ReadKey(s: string): (r: (bool, string))
    ensures |r.1| <= |s|
  {
    var after := Eat(" COMPOSITE KEY", s);
    if after.None? then (false, s) else (true, after.value)
  }

  function ReadSettings(name: string, spec: string, s: string): (r: Option<(Column, string)>)
    ensures r.Some? ==> |r.value.1| <= |s|
  {
    var (key, afterKey) := ReadKey(s);
    var encode := ReadSetting(" ENCODE '", afterKey);
    if encode.None? then None else
      var compress := ReadSetting(" COMPRESS '", encode.value.1);
      if compress.None? then None else
        var level := ReadSetting(" LEVEL '", compress.value.1);
        if level.None? then None else
          var (columnType, length) := DecodeSpec(spec);
          Some((Column(name, columnType, length, key, encode.value.0, compress.value.0, level.value.0), level.value.1))
  }

  function ReadColumn(s: string): (r: Option<(Column, string)>)
    ensures r.Some? ==> |r.value.1| < |s|
  {
    var name := ReadName(s);
    if name.None? then None else
      var afterName := Eat(" ", name.value.1);
      if afterName.None? then None else
        var spec := ReadType(afterName.value);
        if spec.None? then None else ReadSettings(name.value.0, spec.value.0, spec.value.1)
  }

  /** What may follow a column definition. */
  predicate EndsColumn(rest: string) { rest == "" || rest[0] in ",)" }

  /** A definition that the parser can read: a dotted name, a printable type, valid settings. */
  ghost predicate Printable(c: Column) {
    Dotted(c.name) && WellTyped(TypeSpec(c)) && ValidCompression(c)
  }

  /** The column as the server sees it: a sized type is a constant and a length. */
  function Canonical(c: Column): Column {
    var (columnType, length) := DecodeSpec(TypeSpec(c));
    c.(columnType := columnType, length := length)
  }

  lemma ReadsSetting(keyword: string, value: string, rest: string)
    requires forall c <- value :: c != '\''
    requires value == "" ==> Eat(keyword, rest).None?
    ensures ReadSetting(keyword, Setting(keyword, value) + rest) == Some((value, rest))
  {
    if value == "" {
      assert Setting(keyword, value) + rest == rest;
    } else {
      Associates4(keyword, value, "'", rest);
      Eats(keyword, value + ("'" + rest));
      SpanStops(NotQuote, value, "'" + rest);
      Eats("'", rest);
    }
  }

  lemma NoQuoteInNames(name: string)
    requires name in ENCODINGS + COMPRESSIONS + LEVELS
    ensures forall x <- name :: x != '\''
  {
  }

  lemma SettingsHaveNoQuote(c: Column)
    requires ValidCompression(c)
    ensures (forall x <- c.encode :: x != '\'') && (forall x <- c.compress :: x != '\'')
        && (forall x <- c.level :: x != '\'')
  {
    hide SupportsEncoding, SupportsCompression, BaseType;
    if c.encode != "" {
      NoQuoteInNames(c.encode);
    }
    if c.compress != "" {
      NoQuoteInNames(c.compress);
    }
    if c.level != "" {
      NoQuoteInNames(c.level);
    }
  }

  /** The text after the type, from the last option backwards. */
  function LevelOn(c: Column, rest: string): string { Setting(" LEVEL '", c.level) + rest }
  function CompressOn(c: Column, rest: string): string { Setting(" COMPRESS '", c.compress) + LevelOn(c, rest) }
  function EncodeOn(c: Column, rest: string): string { Setting(" ENCODE '", c.encode) + CompressOn(c, rest) }

  lemma StartsLike(c: Column, rest: string)
    requires EndsColumn(rest)
    ensures if c.level == "" then LevelOn(c, rest) == rest else " LEVEL '" <= LevelOn(c, rest)
    ensures if c.compress == "" then CompressOn(c, rest) == LevelOn(c, rest) else " COMPRESS '" <= CompressOn(c, rest)
    ensures if c.encode == "" then EncodeOn(c, rest) == CompressOn(c, rest) else " ENCODE '" <= EncodeOn(c, rest)
  {
  }

  lemma ReadsSettings(c: Column, spec: string, rest: string)
    requires ValidCompression(c) && EndsColumn(rest)
    ensures ReadSettings(c.name, spec, KeyText(c) + EncodeOn(c, rest))
         == Some((c.(columnType := DecodeSpec(spec).0, length := DecodeSpec(spec).1), rest))
  {
    hide Eat, ReadSetting, ReadKey, Setting, Span, DecodeSpec;
    SettingsHaveNoQuote(c);
    StartsLike(c, rest);
    if c.level == "" {
      EatsNot(" LEVEL '", rest, 0);
    }
    ReadsSetting(" LEVEL '", c.level, rest);
    if c.compress == "" {
      EatsNot(" COMPRESS '", LevelOn(c, rest), if c.level == "" then 0 else 1);
    }
    ReadsSetting(" COMPRESS '", c.compress, LevelOn(c, rest));
    if c.encode == "" {
      EatsNot(" ENCODE '", CompressOn(c, rest), if c.compress == "" && c.level == "" then 0 else 1);
    }
    ReadsSetting(" ENCODE '", c.encode, CompressOn(c, rest));
    KeyAbsentOrRead(c, rest);
  }

  lemma KeyAbsentOrRead(c: Column, rest: string)
    requires EndsColumn(rest)
    ensures ReadKey(KeyText(c) + EncodeOn(c, rest)) == (c.compositeKey, EncodeOn(c, rest))
  {
    var s := EncodeOn(c, rest);
    if c.compositeKey {
      Eats(" COMPOSITE KEY", s);
    } else {
      assert KeyText(c) + s == s;
      StartsLike(c, rest);
      EatsNot(" COMPOSITE KEY", s,
        if c.encode != "" then 1 else if c.compress != "" then 5 else if c.level != "" then 1 else 0);
    }
  }

  /** Column definitions round trip, whatever follows them. */
  lemma ColumnRoundTrip(c: Column, rest: string)
    requires Printable(c) && EndsColumn(rest)
    ensures ReadColumn(ColumnText(c) + rest) == Some((Canonical(c), rest))
  {
    var parts: TypeParts :| parts.Valid() && parts.Text() == TypeSpec(c);
    var options := KeyText(c) + EncodeOn(c, rest);
    ColumnTextOn(c, rest);
    ReadsName(c.name, " " + (TypeSpec(c) + options));
    Eats(" ", TypeSpec(c) + options);
    OptionsEndType(c, rest);
    ReadsType(parts, options);
    ReadsSettings(c, TypeSpec(c), rest);
  }

  lemma ColumnTextOn(c: Column, rest: string)
    requires ValidCompression(c)
    ensures ColumnText(c) + rest == Quote(c.name) + (" " + (TypeSpec(c) + (KeyText(c) + EncodeOn(c, rest))))
  {
    Associates4(Setting(" ENCODE '", c.encode), Setting(" COMPRESS '", c.compress), Setting(" LEVEL '", c.level), rest);
    assert SettingsText(c) + rest == EncodeOn(c, rest);
    Associates(Quote(c.name) + " " + TypeSpec(c) + KeyText(c), SettingsText(c), rest);
    Associates5(Quote(c.name), " ", TypeSpec(c), KeyText(c), EncodeOn(c, rest));
  }

  lemma OptionsEndType(c: Column, rest: string)
    requires EndsColumn(rest)
    ensures EndsType(KeyText(c) + EncodeOn(c, rest))
  {
    hide EncodeOn, CompressOn, LevelOn;
    var options := KeyText(c) + EncodeOn(c, rest);
    StartsLike(c, rest);
    if c.compositeKey {
      assert " COMPOSITE KEY" <= options;
    } else {
      assert options == EncodeOn(c, rest);
    }
  }

  // ------------------------------------------------- the declared type constants

  lemma WordIsTyped(word: string, sign: string)
    requires word != "" && (forall c <- word :: IsLetter(c)) && sign in ["", " UNSIGNED", " unsigned"]
    ensures WellTyped(word + sign)
  {
    assert TypeParts(word, sign, None).Text() == word + sign + "" == word + sign;
    assert TypeParts(word, sign, None).Valid();
  }

  lemma ArgumentsAreTyped(word: string, arguments: string)
    requires word != "" && (forall c <- word :: IsLetter(c)) && forall c <- arguments :: InArguments(c)
    ensures WellTyped(word + "(" + arguments + ")")
  {
    var parts := TypeParts(word, "", Some(arguments));
    Associates4(word, "(", arguments, ")");
    assert parts.Text() == word + "" + ("(" + arguments + ")") == word + "(" + arguments + ")";
    assert parts.Valid();
  }

  /** Every declared constant prints a type that the parser reads back, length included. */
  lemma ConstantsRoundTrip(c: Column)
    requires c.columnType in {
      "TIMESTAMP", "INT", "BIGINT", "FLOAT", "DOUBLE", "BINARY", "SMALLINT", "TINYINT", "TINYINT UNSIGNED",
      "SMALLINT UNSIGNED", "INT UNSIGNED", "BIGINT UNSIGNED", "BOOL", "NCHAR", "VARCHAR", "VARBINARY", "JSON",
      "GEOMETRY", "DECIMAL", "BLOB"}
    ensures WellTyped(TypeSpec(c))
    ensures Canonical(c) ==
            if c.columnType in {"NCHAR", "BINARY", "VARCHAR", "VARBINARY", "GEOMETRY"} then c else c.(length := 0)
  {
    hide WellTyped, DecodeSpec, FormatUint;
    if c.columnType in SIZED {
      SizedAreWords(c.columnType);
      SizedRoundTrips(c.columnType, c.length);
      Associates4(c.columnType, "(", FormatUint(c.length), ")");
    } else {
      assert TypeSpec(c) == c.columnType;
      if c.columnType in WORDS {
        WordRoundTrips(c.columnType);
      } else {
        UnsignedRoundTrips(c.columnType);
      }
    }
  }

  /** Every declared constant is its own base type. */
  lemma ConstantsAreBaseTypes(t: string)
    requires t in SIZED || t in WORDS || t in UNSIGNED
    ensures BaseType(t) == t
  {
    hide BaseType, Upper;
    ConstantsAreUpper(t);
    BaseTypeOfText(t, "");
    assert t + "" == t;
  }

  predicate Capitals(t: string) {
    |t| > 1 && t[0] != ' ' && t[|t| - 1] != ' ' && forall c <- t :: c == ' ' || 'A' <= c <= 'Z'
  }

  lemma SizedAreCapitals(t: string)
    requires t in SIZED
    ensures Capitals(t)
  {
  }

  lemma WordsAreCapitals(t: string)
    requires t in WORDS
    ensures Capitals(t)
  {
  }

  lemma UnsignedAreCapitals(t: string)
    requires t in UNSIGNED
    ensures Capitals(t)
  {
  }

  lemma CapitalsAreUpper(t: string)
    requires Capitals(t)
    ensures |t| > 1 && '(' !in t && !IsSpace(t[0]) && !IsSpace(t[|t| - 1]) && Upper(t) == t
  {
    assert t[0] in t && t[|t| - 1] in t;
    assert |Upper(t)| == |t|;
    forall i | 0 <= i < |t| ensures Upper(t)[i] == t[i] {
      assert t[i] in t && Upper(t)[i] == UpperByte(t[i]);
    }
  }

  lemma ConstantsAreUpper(t: string)
    requires t in SIZED || t in WORDS || t in UNSIGNED
    ensures |t| > 1 && '(' !in t && !IsSpace(t[0]) && !IsSpace(t[|t| - 1]) && Upper(t) == t
  {
    hide Upper, Capitals, IsSpace;
    if t in SIZED {
      SizedAreCapitals(t);
    } else if t in WORDS {
      WordsAreCapitals(t);
    } else {
      UnsignedAreCapitals(t);
    }
    CapitalsAreUpper(t);
    assert |t| > 1;
  }

  lemma SizedAreWords(word: string)
    requires word in SIZED
    ensures word != "" && forall c <- word :: IsLetter(c)
  {
  }

  lemma SizedRoundTrips(word: string, length: uint64)
    requires word in SIZED && word != "" && forall c <- word :: IsLetter(c)
    ensures var spec := word + "(" + FormatUint(length) + ")"; WellTyped(spec) && DecodeSpec(spec) == (word, length)
  {
    hide WellTyped, FormatUint, ParseUint;
    var digits := FormatUint(length);
    FormatParses(length);
    ArgumentsAreTyped(word, digits);
    UintRoundTrip(length);
    hide IsLetter;
    var rest := "(" + digits + ")";
    Associates4(word, "(", digits, ")");
    SpanStops(IsLetter, word, rest);
    assert rest[1..|rest| - 1] == digits;
  }

  lemma WordRoundTrips(t: string)
    requires t in WORDS
    ensures WellTyped(t) && DecodeSpec(t) == (t, 0)
  {
    assert t + "" == t;
    WordIsTyped(t, "");
    SpanStops(IsLetter, t, "");
  }

  lemma UnsignedRoundTrips(t: string)
    requires t in UNSIGNED
    ensures WellTyped(t) && DecodeSpec(t) == (t, 0)
  {
    var word := if t == "TINYINT UNSIGNED" then "TINYINT" else if t == "SMALLINT UNSIGNED" then "SMALLINT"
                else if t == "INT UNSIGNED" then "INT" else "BIGINT";
    assert t == word + " UNSIGNED";
    WordIsTyped(word, " UNSIGNED");
    SpanStops(IsLetter, word, " UNSIGNED");
  }
}
