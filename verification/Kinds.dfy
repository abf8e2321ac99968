/**
  What a field's kind, size and struct tag decide, in words: the type DataTypeOf gives it,
  the roles that type may have, its options, and its place in a table or an index.
 */
module Kinds {
  import opened Common
  import opened Ascii
  import opened Decimal
  import opened Parsing
  import opened Column
  import opened Schema

  // -------------------------------------------------------------- roles of types

  lemma {:induction false} UpperTwice(s: string)
    ensures Upper(Upper(s)) == Upper(s)
  {
    assert forall c: char :: UpperByte(UpperByte(c)) == UpperByte(c);
    assert forall i :: 0 <= i < |s| ==> Upper(Upper(s))[i] == UpperByte(Upper(s)[i]) == Upper(s)[i];
  }

  /** The words that DataTypeOf writes for GORM's own kinds. */
  lemma PlainTexts(text: string)
    requires text in ["bool", "float", "double", "TIMESTAMP", "NCHAR", "BINARY", "tinyint", "smallint", "int", "bigint",
                      "tinyint unsigned", "smallint unsigned", "int unsigned", "bigint unsigned"]
    ensures |text| > 1 && '(' !in text && !IsSpace(text[0]) && !IsSpace(text[|text| - 1])
    ensures |text| in [4, 5] ==> UpperByte(text[1]) in "OLC"
    ensures |text| == 7 ==> UpperByte(text[0]) == 'T'
    ensures |text| == 4 ==> UpperByte(text[1]) == 'O' && UpperByte(text[0]) == 'B'
  {
  }

  lemma PlainIsNoOther(text: string)
    requires text in ["bool", "float", "double", "TIMESTAMP", "NCHAR", "BINARY", "tinyint", "smallint", "int", "bigint",
                      "tinyint unsigned", "smallint unsigned", "int unsigned", "bigint unsigned"]
    ensures Upper(text) !in ["JSON", "DECIMAL", "BLOB"]
  {
    hide Upper, UpperByte;
    PlainTexts(text);
    var upper := Upper(text);
    assert |upper| == |text| && upper[0] == UpperByte(text[0]) && upper[1] == UpperByte(text[1]);
  }

  lemma ExplicitText(field: Field) returns (arguments: string)
    requires Upper(field.dataType) in ["VARCHAR", "BINARY", "NCHAR", "VARBINARY", "GEOMETRY", "DECIMAL", "JSON", "BLOB"]
    ensures DataTypeOf(field) == Upper(field.dataType) + arguments
    ensures arguments == "" || (arguments[0] == '(' && arguments[|arguments| - 1] == ')')
  {
    hide FormatInt, Upper;
    var word := Upper(field.dataType);
    if word in ["JSON", "BLOB"] {
      arguments := "";
    } else if word == "DECIMAL" {
      var precision := if field.precision == 0 then 18 else field.precision;
      var inside := FormatInt(precision) + if field.scale > 0 then "," + FormatInt(field.scale) else "";
      arguments := "(" + inside + ")";
      Associates4("DECIMAL", "(", inside, ")");
    } else {
      arguments := "(" + FormatInt(SizeOf(field)) + ")";
      Associates4(word, "(", FormatInt(SizeOf(field)), ")");
    }
  }

  lemma ExplicitBase(field: Field)
    requires Upper(field.dataType) in ["VARCHAR", "BINARY", "NCHAR", "VARBINARY", "GEOMETRY", "DECIMAL", "JSON", "BLOB"]
    ensures BaseType(DataTypeOf(field)) == Upper(field.dataType)
  {
    hide BaseType, DataTypeOf, Upper;
    var arguments := ExplicitText(field);
    ExplicitLetters(Upper(field.dataType));
    BaseTypeOfWord(Upper(field.dataType), arguments);
    UpperTwice(field.dataType);
  }

  lemma ExplicitLetters(word: string)
    requires word in ["VARCHAR", "BINARY", "NCHAR", "VARBINARY", "GEOMETRY", "DECIMAL", "JSON", "BLOB"]
    ensures |word| > 1 && forall c <- word :: IsLetter(c)
  {
  }

  lemma KindText(field: Field) returns (text: string, arguments: string)
    requires field.dataType in ["bool", "int", "uint", "float", "string", "time", "bytes"]
    ensures DataTypeOf(field) == text + arguments
    ensures text in ["bool", "float", "double", "TIMESTAMP", "NCHAR", "BINARY", "tinyint", "smallint", "int", "bigint",
                     "tinyint unsigned", "smallint unsigned", "int unsigned", "bigint unsigned"]
    ensures arguments == "" || (arguments[0] == '(' && arguments[|arguments| - 1] == ')')
  {
    hide FormatInt, BySize, ExplicitType;
    NotExplicitKind(field);
    text, arguments := DataTypeOf(field), "";
    if field.dataType in ["string", "bytes"] {
      text := if field.dataType == "string" then "NCHAR" else "BINARY";
      arguments := "(" + FormatInt(SizeOf(field)) + ")";
      Associates4(text, "(", FormatInt(SizeOf(field)), ")");
    } else if field.dataType in ["int", "uint"] {
      SizeTexts(field, if field.dataType == "int" then "" else " unsigned");
    }
    assert arguments == "" ==> text + arguments == text;
  }

  lemma SizeTexts(field: Field, suffix: string)
    requires suffix in ["", " unsigned"]
    ensures BySize(field, suffix) in ["tinyint", "smallint", "int", "bigint", "tinyint unsigned", "smallint unsigned",
                                      "int unsigned", "bigint unsigned"]
  {
    assert "tinyint" + "" == "tinyint" && "tinyint" + " unsigned" == "tinyint unsigned";
    assert "smallint" + "" == "smallint" && "smallint" + " unsigned" == "smallint unsigned";
    assert "int" + "" == "int" && "int" + " unsigned" == "int unsigned";
    assert "bigint" + "" == "bigint" && "bigint" + " unsigned" == "bigint unsigned";
  }

  lemma NotExplicitKind(field: Field)
    requires field.dataType in ["bool", "int", "uint", "float", "string", "time", "bytes"]
    ensures ExplicitType(field).None?
  {
    hide FormatInt, Upper;
    var (kind, upper) := (field.dataType, Upper(field.dataType));
    assert |upper| == |kind| && upper[0] == UpperByte(kind[0]) && upper[1] == UpperByte(kind[1]);
    NoExplicitKind(kind, upper);
  }

  lemma NoExplicitKind(kind: string, upper: string)
    requires kind in ["bool", "int", "uint", "float", "string", "time", "bytes"]
    requires |upper| == |kind| && upper[0] == UpperByte(kind[0]) && upper[1] == UpperByte(kind[1])
    ensures upper !in ["VARCHAR", "BINARY", "NCHAR", "VARBINARY", "GEOMETRY", "DECIMAL", "JSON", "BLOB"]
  {
  }

  /**
    Which role a field's kind may have. JSON, in any case, only a tag; DECIMAL and BLOB
    only a data column; every other kind both.
   */
  lemma RolesOfKinds(field: Field)
    ensures var (c, word) := (ColumnDefinition(field), Upper(field.dataType));
            && (word == "JSON" ==>
                  PlacementError(c, false) == Some(JSONMustBeTag(field.dbName)) && PlacementError(c, true) == None)
            && (word == "DECIMAL" || word == "BLOB" ==>
                  PlacementError(c, true) == Some(UnsupportedTagType(field.dbName)) && PlacementError(c, false) == None)
            && (word in ["VARCHAR", "BINARY", "NCHAR", "VARBINARY", "GEOMETRY"] ==>
                  PlacementError(c, true) == None && PlacementError(c, false) == None)
            && (field.dataType in ["bool", "int", "uint", "float", "string", "time", "bytes"] ==>
                  PlacementError(c, true) == None && PlacementError(c, false) == None)
  {
    hide BaseType, DataTypeOf, Upper, HasOption;
    if Upper(field.dataType) in ["VARCHAR", "BINARY", "NCHAR", "VARBINARY", "GEOMETRY", "DECIMAL", "JSON", "BLOB"] {
      ExplicitBase(field);
    }
    if field.dataType in ["bool", "int", "uint", "float", "string", "time", "bytes"] {
      var text, arguments := KindText(field);
      PlainTexts(text);
      BaseTypeOfText(text, arguments);
      PlainIsNoOther(text);
    }
  }

  // ---------------------------------------------------------------- other kinds

  /** Floats take the type that holds their size, booleans and times have one type each. */
  lemma PlainKinds(field: Field)
    ensures field.dataType == "bool" ==> DataTypeOf(field) == "bool"
    ensures field.dataType == "time" ==> DataTypeOf(field) == "TIMESTAMP"
    ensures field.dataType == "float" && field.size <= 32 ==> DataTypeOf(field) == "float"
    ensures field.dataType == "float" && field.size > 32 ==> DataTypeOf(field) == "double"
    ensures Upper(field.dataType) == "JSON" ==> DataTypeOf(field) == "JSON"
    ensures Upper(field.dataType) == "BLOB" ==> DataTypeOf(field) == "BLOB"
  {
    hide FormatInt, Upper, BySize;
    if field.dataType in ["bool", "time", "float"] {
      NotExplicitKind(field);
    }
  }

  /** A declared type that is none of these is taken as it is. */
  lemma OtherKinds(field: Field)
    requires Upper(field.dataType) !in ["VARCHAR", "BINARY", "NCHAR", "VARBINARY", "GEOMETRY"]
    requires Upper(field.dataType) !in ["DECIMAL", "JSON", "BLOB"]
    requires field.dataType !in ["bool", "int", "uint", "float", "string", "time", "bytes"]
    ensures DataTypeOf(field) == field.dataType
  {
    hide Upper;
  }

  /** "DECIMAL(10,2)" or "DECIMAL(18)": precision, and scale if there is one. */
  function ReadDecimal(s: string): Option<(uint64, uint64)> {
    var inside := Eat("DECIMAL(", s);
    if inside.None? || ReadUint(inside.value).None? then None else
      var (precision, rest) := ReadUint(inside.value).value;
      if rest == ")" then Some((precision, 0)) else
        var digits := Eat(",", rest);
        if digits.None? || ReadUint(digits.value).None? || ReadUint(digits.value).value.1 != ")" then None
        else Some((precision, ReadUint(digits.value).value.0))
  }

  /** A decimal keeps its precision, 18 when none is given, and its scale. */
  lemma DecimalArrives(field: Field)
    requires Upper(field.dataType) == "DECIMAL"
    requires 0 <= field.precision < 0x8000_0000_0000_0000 && 0 <= field.scale < 0x8000_0000_0000_0000
    ensures ReadDecimal(DataTypeOf(field)) == Some((if field.precision == 0 then 18 else field.precision, field.scale))
  {
    hide FormatUint, ReadUint, Upper;
    var precision := if field.precision == 0 then 18 else field.precision;
    var p := FormatUint(precision);
    var rest := (if field.scale > 0 then "," + FormatUint(field.scale) else "") + ")";
    assert DataTypeOf(field) == "DECIMAL(" + (p + rest) by {
      var tail := if field.scale > 0 then "," + FormatUint(field.scale) else "";
      assert "DECIMAL" + "(" == "DECIMAL(";
      Associates4("DECIMAL(", p, tail, ")");
      Associates(p, tail, ")");
      Associates("DECIMAL(", p + tail, ")");
    }
    Eats("DECIMAL(", p + rest);
    ReadsUint(precision, rest);
    if field.scale > 0 {
      Associates(",", FormatUint(field.scale), ")");
      Eats(",", FormatUint(field.scale) + ")");
      ReadsUint(field.scale, ")");
    } else {
      assert "" + ")" == ")";
    }
  }

  // ------------------------------------------------------------------- options

  /** The options of a struct tag are separated by commas; case and outer spaces do not count. */
  lemma OptionsInWords(field: Field, options: seq<string>)
    requires options != [] && (forall o <- options :: ',' !in o) && field.tdengine == JoinOn(',', options)
    ensures IsTag(field) <==> exists o <- options :: EqualFold(TrimSpace(o), "tag")
    ensures ColumnDefinition(field).compositeKey <==> exists o <- options :: EqualFold(TrimSpace(o), "compositekey")
  {
    hide DataTypeOf, EqualFold, TrimSpace, Split;
    SplitJoined(',', options);
  }

  /** A table's columns are exactly its migrated fields without the tag option, its tags those with it. */
  lemma DefinitionsInWords(fields: seq<Field>, tags: bool, c: Column)
    ensures c in Definitions(fields, tags) <==>
            exists f <- fields :: && !f.ignoreMigration && f.dbName != "" && HasOption(f, "tag") == tags
              && c == Column(f.dbName, DataTypeOf(f), 0, HasOption(f, "compositekey"), "", "", "")
  {
    hide DataTypeOf, HasOption, Definitions;
    if c in Definitions(fields, tags) {
      var k := DefinitionOrigin(fields, tags, c);
      assert fields[k] in fields;
    }
    if f :|
        && f in fields && !f.ignoreMigration && f.dbName != "" && HasOption(f, "tag") == tags
        && c == Column(f.dbName, DataTypeOf(f), 0, HasOption(f, "compositekey"), "", "", "") {
      DefinitionMembers(fields, f);
    }
  }

  /** A supported index names one field, a tag, and asks for nothing else. */
  lemma TagIndexInWords(i: Index)
    ensures IsTagIndex(i) <==>
            exists f: Field :: HasOption(f, "tag") && i == Index(i.name, [IndexField(f, "", "", "", 0)], "", "", "")
  {
    hide HasOption;
    if IsTagIndex(i) {
      var f := i.fields[0].field;
      assert i.fields == [IndexField(f, "", "", "", 0)];
      assert HasOption(f, "tag");
    }
  }
}
