/**
  Batch tag updates (tag.go): building the ALTER TABLE statement, its refusals, and
  what the statement does to the tags that a server stores.
 */
module TagUpdate {
  import opened Common
  import opened Ascii
  import opened Identifier
  import opened Builder
  import opened Parsing
  import opened SortedNames

  datatype TableTagUpdate = TableTagUpdate(table: string, tags: map<string, Value>)

  datatype TagError =
    | TagUpdateRequired
    | TableNameEmpty
    | TagValueRequired(table: string)
    | DuplicateTable(table: string)
    | TagNameEmpty

  predicate Blank(s: string) { TrimSpace(s) == "" }

  /** Tables are compared without regard to case. */
  function Key(u: TableTagUpdate): string { Lower(u.table) }

  // ------------------------------------------------------------------ refusals

  ghost predicate DistinctTables(updates: seq<TableTagUpdate>) {
    forall i, j :: 0 <= i < j < |updates| ==> Key(updates[i]) != Key(updates[j])
  }

  /** The rule, without regard to the order of the checks. */
  ghost predicate Accepted(updates: seq<TableTagUpdate>) {
    && updates != []
    && (forall u <- updates :: !Blank(u.table) && u.tags != map[] && forall name <- u.tags :: !Blank(name))
    && DistinctTables(updates)
  }

  /** The first check that an update fails, given the tables seen before it. */
  ghost function UpdateError(seen: set<string>, u: TableTagUpdate): Option<TagError> {
    if Blank(u.table) then Some(TableNameEmpty)
    else if u.tags == map[] then Some(TagValueRequired(u.table))
    else if Key(u) in seen then Some(DuplicateTable(u.table))
    else if exists name <- u.tags :: Blank(name) then Some(TagNameEmpty)
    else None
  }

  ghost function FirstError(seen: set<string>, updates: seq<TableTagUpdate>): Option<TagError>
    decreases |updates|
  {
    if updates == [] then None
    else if UpdateError(seen, updates[0]).Some? then UpdateError(seen, updates[0])
    else FirstError(seen + {Key(updates[0])}, updates[1..])
  }

  lemma {:induction false} NoErrorIffAccepted(seen: set<string>, updates: seq<TableTagUpdate>)
    requires updates != []
    ensures FirstError(seen, updates).None? <==> Accepted(updates) && forall u <- updates :: Key(u) !in seen
    decreases |updates|
  {
    hide Blank, Key;
    var u, more := updates[0], updates[1..];
    assert updates == [u] + more && u in updates;
    if UpdateError(seen, u).None? {
      if more != [] {
        NoErrorIffAccepted(seen + {Key(u)}, more);
        if FirstError(seen, updates).None? {
          WholeIsAccepted(seen, updates);
        }
        if Accepted(updates) && (forall v <- updates :: Key(v) !in seen) {
          RestIsAccepted(seen, updates);
        }
      }
    }
  }

  lemma WholeIsAccepted(seen: set<string>, updates: seq<TableTagUpdate>)
    requires |updates| > 1 && UpdateError(seen, updates[0]).None?
    requires Accepted(updates[1..]) && forall v <- updates[1..] :: Key(v) !in seen + {Key(updates[0])}
    ensures Accepted(updates) && forall v <- updates :: Key(v) !in seen
  {
    hide Blank, Key;
    var more := updates[1..];
    assert updates == [updates[0]] + more;
    forall i, j | 0 <= i < j < |updates| ensures Key(updates[i]) != Key(updates[j]) {
      assert updates[j] == more[j - 1] && more[j - 1] in more;
      if i > 0 {
        assert updates[i] == more[i - 1];
      }
    }
  }

  lemma RestIsAccepted(seen: set<string>, updates: seq<TableTagUpdate>)
    requires |updates| > 1 && Accepted(updates) && forall v <- updates :: Key(v) !in seen
    ensures Accepted(updates[1..]) && forall v <- updates[1..] :: Key(v) !in seen + {Key(updates[0])}
  {
    hide Blank;
    var more := updates[1..];
    forall i, j | 0 <= i < j < |more| ensures Key(more[i]) != Key(more[j]) {
      assert more[i] == updates[i + 1] && more[j] == updates[j + 1];
    }
    forall v <- more ensures Key(v) !in seen + {Key(updates[0])} {
      var j :| 0 <= j < |more| && more[j] == v;
      assert updates[j + 1] == v && v in updates;
    }
  }

  /** The rule in words: blank is all spaces, and tables that differ in case only are one. */
  lemma AcceptedInWords(updates: seq<TableTagUpdate>)
    ensures Accepted(updates) <==>
            && updates != []
            && (forall u <- updates :: (exists c <- u.table :: !IsSpace(c)) && u.tags != map[])
            && (forall u <- updates :: forall name <- u.tags :: exists c <- name :: !IsSpace(c))
            && (forall i, j :: 0 <= i < j < |updates| ==> !EqualFold(updates[i].table, updates[j].table))
  {
    hide TrimSpace, IsSpace;
    forall s: string ensures Blank(s) <==> forall c <- s :: IsSpace(c) {
      BlankInWords(s);
    }
    hide Blank;
    assert DistinctTables(updates) <==>
           forall i, j :: 0 <= i < j < |updates| ==> !EqualFold(updates[i].table, updates[j].table);
    hide DistinctTables;
  }

  /** Each error names a rule that is broken, and the table that breaks it. */
  lemma {:induction false} ErrorsInWords(seen: set<string>, updates: seq<TableTagUpdate>)
    requires FirstError(seen, updates).Some?
    ensures match FirstError(seen, updates).value
            case TableNameEmpty => exists u <- updates :: Blank(u.table)
            case TagValueRequired(table) => exists u <- updates :: u.table == table && u.tags == map[]
            case DuplicateTable(table) =>
              exists j :: 0 <= j < |updates| && updates[j].table == table
                && (Lower(table) in seen || exists i :: 0 <= i < j && EqualFold(updates[i].table, table))
            case TagNameEmpty => exists u <- updates :: exists name <- u.tags :: Blank(name)
            case TagUpdateRequired => false
    decreases |updates|
  {
    hide Blank;
    var (u, more) := (updates[0], updates[1..]);
    assert updates == [u] + more && u in updates;
    if UpdateError(seen, u).None? {
      ErrorsInWords(seen + {Key(u)}, more);
      match FirstError(seen, updates).value
      case DuplicateTable(table) =>
        var j :| 0 <= j < |more| && more[j].table == table
          && (Lower(table) in seen + {Key(u)} || exists i :: 0 <= i < j && EqualFold(more[i].table, table));
        assert updates[j + 1] == more[j];
        if Lower(table) !in seen {
          if Lower(table) == Key(u) {
            assert EqualFold(updates[0].table, table);
          } else {
            var i :| 0 <= i < j && EqualFold(more[i].table, table);
            assert updates[i + 1] == more[i];
          }
        }
      case _ =>
    }
  }

  // -------------------------------------------------------------------- printer

  /** "`a` = ?,`b` = ?" */
  function SetText(names: seq<string>): string {
    if names == [] then "" else Quote(names[0]) + " = ?" + if |names| == 1 then "" else "," + SetText(names[1..])
  }

  ghost function UpdateText(u: TableTagUpdate): string {
    Quote(u.table) + " SET TAG " + SetText(Listing(u.tags.Keys))
  }

  ghost function UpdatesText(updates: seq<TableTagUpdate>): string {
    if updates == [] then "" else UpdateText(updates[0]) + if |updates| == 1 then ""
        else " " + UpdatesText(updates[1..])
  }

  ghost function StatementText(updates: seq<TableTagUpdate>): string { "ALTER TABLE " + UpdatesText(updates) }

  ghost function UpdateValues(u: TableTagUpdate): seq<Value> {
    ListingMembers(u.tags.Keys);
    assert forall name <- Listing(u.tags.Keys) :: name in Elements(Listing(u.tags.Keys));
    ValuesOf(u.tags, Listing(u.tags.Keys))
  }

  ghost function StatementValues(updates: seq<TableTagUpdate>): seq<Value> {
    if updates == [] then [] else UpdateValues(updates[0]) + StatementValues(updates[1..])
  }

  /** The tag loop over the sorted names. */
  method WriteTags(statement: Builder, tags: map<string, Value>, names: seq<string>) returns (values: seq<Value>)
    requires forall name <- names :: name in tags
    modifies statement`text
    ensures statement.text == old(statement.text) + SetText(names)
    ensures values == ValuesOf(tags, names)
  {
    hide Quote, SetText, ValuesOf;
    values := [];
    var i := 0;
    while i < |names|
      invariant 0 <= i <= |names|
      invariant statement.text + (if 0 < i < |names| then "," else "") + SetText(names[i..])
          == old(statement.text) + SetText(names)
      invariant values + ValuesOf(tags, names[i..]) == ValuesOf(tags, names)
    {
      TagStep(statement.text, names, i);
      ValueStep(values, tags, names, i);
      if i > 0 {
        statement.WriteString(",");
      }
      statement.QuoteTo(names[i]);
      statement.WriteString(" = ?");
      values := values + [tags[names[i]]];
      i := i + 1;
    }
    assert names[|names|..] == [];
    NoTagsLeft(statement.text, tags);
  }

  lemma NoTagsLeft(text: string, tags: map<string, Value>)
    ensures text + "" + SetText([]) == text && ValuesOf(tags, []) == []
  {
  }

  lemma ValueStep(values: seq<Value>, tags: map<string, Value>, names: seq<string>, i: nat)
    requires i < |names| && forall name <- names :: name in tags
    ensures values + ValuesOf(tags, names[i..]) == values + [tags[names[i]]] + ValuesOf(tags, names[i + 1..])
  {
    assert names[i..][1..] == names[i + 1..];
    Associates(values, [tags[names[i]]], ValuesOf(tags, names[i + 1..]));
  }

  lemma TagStep(text: string, names: seq<string>, i: nat)
    requires i < |names|
    ensures text + (if 0 < i < |names| then "," else "") + SetText(names[i..])
         == text + (if i > 0 then "," else "") + Quote(names[i]) + " = ?"
            + (if 0 < i + 1 < |names| then "," else "") + SetText(names[i + 1..])
  {
    hide Quote;
    var before, sep := text + (if i > 0 then "," else ""), if i + 1 < |names| then "," else "";
    assert names[i..][1..] == names[i + 1..];
    assert SetText(names[i..]) == Quote(names[i]) + " = ?" + (sep + SetText(names[i + 1..]));
    Associates4(before, Quote(names[i]), " = ?", sep + SetText(names[i + 1..]));
    Associates(before + Quote(names[i]) + " = ?", sep, SetText(names[i + 1..]));
  }

  method HasBlankName(tags: map<string, Value>) returns (blank: bool)
    ensures blank <==> exists name <- tags :: Blank(name)
  {
    hide Blank;
    var left := tags.Keys;
    while left != {}
      invariant left <= tags.Keys && forall name <- tags :: name in left || !Blank(name)
      decreases |left|
    {
      var name :| name in left;
      if Blank(name) {
        return true;
      }
      left := left - {name};
    }
    blank := false;
  }

  /** The checks of one turn of the loop. */
  method CheckUpdate(seen: set<string>, u: TableTagUpdate) returns (error: Option<TagError>)
    ensures error == UpdateError(seen, u)
  {
    hide Blank;
    if Blank(u.table) {
      return Some(TableNameEmpty);
    }
    if |u.tags| == 0 {
      return Some(TagValueRequired(u.table));
    }
    if Key(u) in seen {
      return Some(DuplicateTable(u.table));
    }
    var blank := HasBlankName(u.tags);
    error := if blank then Some(TagNameEmpty) else None;
  }

  /** buildTableTagUpdateSQL. */
  method BuildTableTagUpdateSQL(updates: seq<TableTagUpdate>)
    returns (statement: string, values: seq<Value>, error: Option<TagError>)
    ensures error == if updates == [] then Some(TagUpdateRequired) else FirstError({}, updates)
    ensures error.None? <==> Accepted(updates)
    ensures error.None? ==> statement == StatementText(updates) && values == StatementValues(updates)
    ensures error.Some? ==> statement == "" && values == []
  {
    hide *;
    if updates == [] {
      NothingIsNotAccepted();
      return "", [], Some(TagUpdateRequired);
    }
    NoErrorIffAccepted({}, updates);
    var b := new Builder(false);
    b.WriteString("ALTER TABLE ");
    assert "" + "ALTER TABLE " == "ALTER TABLE ";
    values := [];
    var seen: set<string> := {};
    var i := 0;
    UpdatesBegin(updates);
    while i < |updates|
      invariant 0 <= i <= |updates| && fresh(b)
      invariant FirstError(seen, updates[i..]) == FirstError({}, updates)
      invariant b.text + (if 0 < i < |updates| then " " else "") + UpdatesText(updates[i..]) == StatementText(updates)
      invariant values + StatementValues(updates[i..]) == StatementValues(updates)
    {
      UpdateStep(b.text, values, seen, updates, i);
      error := CheckUpdate(seen, updates[i]);
      if error.Some? {
        return "", [], error;
      }
      seen := seen + {Key(updates[i])};
      if i > 0 {
        b.WriteString(" ");
      }
      var tags := WriteUpdate(b, updates[i]);
      values := values + tags;
      i := i + 1;
    }
    assert updates[i..] == [];
    UpdatesEnd(seen, b.text, values);
    statement, error := b.text, None;
  }

  lemma NothingIsNotAccepted()
    ensures !Accepted([])
  {
  }

  lemma UpdatesBegin(updates: seq<TableTagUpdate>)
    ensures updates[0..] == updates && "ALTER TABLE " + UpdatesText(updates) == StatementText(updates)
    ensures "ALTER TABLE " + "" == "ALTER TABLE "
    ensures [] + StatementValues(updates) == StatementValues(updates)
  {
  }

  lemma UpdatesEnd(seen: set<string>, text: string, values: seq<Value>)
    ensures FirstError(seen, []) == None
    ensures text + "" + UpdatesText([]) == text && values + StatementValues([]) == values
  {
  }

  method WriteUpdate(b: Builder, u: TableTagUpdate) returns (values: seq<Value>)
    modifies b`text
    ensures b.text == old(b.text) + UpdateText(u)
    ensures values == UpdateValues(u)
  {
    hide Quote, SetText, Listing;
    b.QuoteTo(u.table);
    b.WriteString(" SET TAG ");
    var names := SortedKeys(u.tags);
    assert forall name <- names :: name in Elements(names);
    values := WriteTags(b, u.tags, names);
    Associates4(old(b.text), Quote(u.table), " SET TAG ", SetText(names));
  }

  lemma UpdateStep(text: string, values: seq<Value>, seen: set<string>, updates: seq<TableTagUpdate>, i: nat)
    requires i < |updates|
    ensures FirstError(seen, updates[i..]) ==
            if UpdateError(seen, updates[i]).Some? then UpdateError(seen, updates[i])
            else FirstError(seen + {Key(updates[i])}, updates[i + 1..])
    ensures text + (if 0 < i < |updates| then " " else "") + UpdatesText(updates[i..])
         == text + (if i > 0 then " " else "") + UpdateText(updates[i])
            + (if 0 < i + 1 < |updates| then " " else "") + UpdatesText(updates[i + 1..])
    ensures values + StatementValues(updates[i..])
        == values + UpdateValues(updates[i]) + StatementValues(updates[i + 1..])
  {
    hide UpdateError, UpdateText, UpdateValues, Key;
    assert updates[i..][1..] == updates[i + 1..];
    Associates4(text + if i > 0 then " " else "", UpdateText(updates[i]),
                if i + 1 < |updates| then " " else "", UpdatesText(updates[i + 1..]));
    Associates(values, UpdateValues(updates[i]), StatementValues(updates[i + 1..]));
  }

  // --------------------------------------------------------------------- parser

  function ReadSets(s: string): (r: Option<(seq<string>, string)>)
    ensures r.Some? ==> |r.value.1| < |s|
    decreases |s|
  {
    var name := ReadName(s);
    if name.None? then None else
      var rest := Eat(" = ?", name.value.1);
      if rest.None? then None
      else if rest.value == "" || rest.value[0] != ',' then Some(([name.value.0], rest.value)) else
        var more := ReadSets(rest.value[1..]);
        if more.None? then None else Some(([name.value.0] + more.value.0, more.value.1))
  }

  function ReadUpdates(s: string, vars: seq<Value>): Option<seq<TableTagUpdate>>
    decreases |s|
  {
    var table := ReadName(s);
    if table.None? then None else
      var tags := Eat(" SET TAG ", table.value.1);
      if tags.None? then None else
        var names := ReadSets(tags.value);
        if names.None? || |names.value.0| > |vars| then None else
          var n := |names.value.0|;
          var (u, rest) := (TableTagUpdate(table.value.0, Pair(names.value.0, vars[..n])), names.value.1);
          if rest == "" then (if vars[n..] == [] then Some([u]) else None) else
            var next := Eat(" ", rest);
            if next.None? then None else
              var more := ReadUpdates(next.value, vars[n..]);
              if more.None? then None else Some([u] + more.value)
  }

  /** The updates a statement with its variables asks for. */
  function ReadStatement(s: string, vars: seq<Value>): Option<seq<TableTagUpdate>> {
    var updates := Eat("ALTER TABLE ", s);
    if updates.None? then None else ReadUpdates(updates.value, vars)
  }

  function BoundUpdate(interpolate: bool, u: TableTagUpdate): TableTagUpdate {
    u.(tags := BoundTags(interpolate, u.tags))
  }

  function BoundUpdates(interpolate: bool, updates: seq<TableTagUpdate>): (bound: seq<TableTagUpdate>)
    ensures |bound| == |updates| && forall i :: 0 <= i < |updates| ==> bound[i] == BoundUpdate(interpolate, updates[i])
  {
    if updates == [] then [] else [BoundUpdate(interpolate, updates[0])] + BoundUpdates(interpolate, updates[1..])
  }

  /** Dotted table and tag names: the names that mean the same after quoting. */
  ghost predicate Nameable(u: TableTagUpdate) { Dotted(u.table) && forall name <- u.tags :: Dotted(name) }

  lemma {:induction false} ReadsSets(names: seq<string>, rest: string)
    requires names != [] && (forall name <- names :: Dotted(name)) && (rest != "" ==> rest[0] == ' ')
    ensures ReadSets(SetText(names) + rest) == Some((names, rest))
  {
    hide Dotted, Quote, ReadName;
    var name, more := names[0], names[1..];
    assert names == [name] + more && name in names;
    if more == [] {
      assert names == [name];
      Associates(Quote(name), " = ?", rest);
      assert Quote(name) + " = ?" + "" == Quote(name) + " = ?";
      ReadsName(name, " = ?" + rest);
      Eats(" = ?", rest);
    } else {
      var after := "," + (SetText(more) + rest);
      ReadsSets(more, rest);
      Associates(Quote(name) + " = ?", "," + SetText(more), rest);
      Associates(",", SetText(more), rest);
      Associates(Quote(name), " = ?", after);
      ReadsName(name, " = ?" + after);
      Eats(" = ?", after);
      assert after[1..] == SetText(more) + rest;
    }
  }

  lemma {:induction false} ReadsUpdates(interpolate: bool, updates: seq<TableTagUpdate>)
    requires updates != [] && forall u <- updates :: Nameable(u) && u.tags != map[]
    ensures ReadUpdates(UpdatesText(updates), BoundAll(interpolate, StatementValues(updates)))
         == Some(BoundUpdates(interpolate, updates))
  {
    hide Dotted, Quote, ReadName, ReadSets, SetText, UpdateText, UpdateValues, BoundAll, Pair, BoundTags, Listing;
    var u, more := updates[0], updates[1..];
    assert updates == [u] + more && u in updates;
    var names := Listing(u.tags.Keys);
    var rest := if more == [] then "" else " " + UpdatesText(more);
    BoundSplits(interpolate, UpdateValues(u), StatementValues(more));
    UpdatePairsUp(interpolate, u);
    SplitsBack(BoundAll(interpolate, UpdateValues(u)), BoundAll(interpolate, StatementValues(more)));
    UpdateTextOn(u, rest);
    assert UpdatesText(updates) == UpdateText(u) + rest;
    ReadsName(u.table, " SET TAG " + (SetText(names) + rest));
    Eats(" SET TAG ", SetText(names) + rest);
    ReadsSets(names, rest);
    if more == [] {
      assert BoundUpdates(interpolate, updates) == [BoundUpdate(interpolate, u)];
    } else {
      ReadsUpdates(interpolate, more);
      Eats(" ", UpdatesText(more));
    }
  }

  lemma UpdateTextOn(u: TableTagUpdate, rest: string)
    ensures UpdateText(u) + rest == Quote(u.table) + (" SET TAG " + (SetText(Listing(u.tags.Keys)) + rest))
  {
    hide Quote, SetText, Listing;
    Associates4(Quote(u.table), " SET TAG ", SetText(Listing(u.tags.Keys)), rest);
  }

  lemma UpdatePairsUp(interpolate: bool, u: TableTagUpdate)
    requires u.tags != map[]
    ensures var names := Listing(u.tags.Keys);
            && names != [] && (forall name <- names :: name in u.tags)
            && |BoundAll(interpolate, UpdateValues(u))| == |names|
            && Pair(names, BoundAll(interpolate, UpdateValues(u))) == BoundTags(interpolate, u.tags)
  {
    hide Listing, Pair, BoundTags, BoundAll;
    var names := Listing(u.tags.Keys);
    ListingMembers(u.tags.Keys);
    assert forall name <- names :: name in Elements(names);
    var name :| name in u.tags;
    assert name in Elements(names);
    ValuesPairUp(interpolate, u.tags, names);
  }

  /** The statement asks for exactly the updates it was built from. */
  lemma StatementRoundTrip(interpolate: bool, updates: seq<TableTagUpdate>)
    requires Accepted(updates) && forall u <- updates :: Nameable(u)
    ensures ReadStatement(StatementText(updates), BoundAll(interpolate, StatementValues(updates)))
         == Some(BoundUpdates(interpolate, updates))
  {
    hide ReadUpdates, UpdatesText, Nameable, Blank, BoundAll;
    Eats("ALTER TABLE ", UpdatesText(updates));
    ReadsUpdates(interpolate, updates);
  }

  // ------------------------------------------------------------------ semantics

  /** The tags of every subtable, by its case-folded name. */
  type Store = map<string, map<string, Value>>

  function Current(store: Store, key: string): map<string, Value> { if key in store then store[key] else map[] }

  function Set(store: Store, u: TableTagUpdate): Store { store[Key(u) := Current(store, Key(u)) + u.tags] }

  function SetAll(store: Store, updates: seq<TableTagUpdate>): Store
    decreases |updates|
  {
    if updates == [] then store else SetAll(Set(store, updates[0]), updates[1..])
  }

  /** What a statement does: it sets the tags it names and leaves everything else. */
  function Effect(store: Store, s: string, vars: seq<Value>): Option<Store> {
    var updates := ReadStatement(s, vars);
    if updates.None? then None else Some(SetAll(store, updates.value))
  }

  /** One statement for each update, in the given order. */
  ghost function OneByOne(interpolate: bool, store: Store, updates: seq<TableTagUpdate>): Option<Store>
    decreases |updates|
  {
    if updates == [] then Some(store) else
      var single := [updates[0]];
      var next := Effect(store, StatementText(single), BoundAll(interpolate, StatementValues(single)));
      if next.None? then None else OneByOne(interpolate, next.value, updates[1..])
  }

  lemma {:induction false} OneByOneIsSetAll(interpolate: bool, store: Store, updates: seq<TableTagUpdate>)
    requires Accepted(updates) && forall u <- updates :: Nameable(u)
    ensures OneByOne(interpolate, store, updates) == Some(SetAll(store, BoundUpdates(interpolate, updates)))
    decreases |updates|
  {
    hide Blank, Nameable, StatementText, StatementValues, BoundAll, ReadStatement, Set, BoundUpdate;
    var single, more := [updates[0]], updates[1..];
    assert updates[0] in updates;
    StatementRoundTrip(interpolate, single);
    var bound := BoundUpdate(interpolate, updates[0]);
    assert BoundUpdates(interpolate, single) == [bound];
    assert SetAll(store, [bound]) == Set(store, bound);
    assert BoundUpdates(interpolate, updates)[1..] == BoundUpdates(interpolate, more);
    if more != [] {
      RestIsAccepted({}, updates);
      OneByOneIsSetAll(interpolate, Set(store, bound), more);
    }
  }

  /** With distinct tables, the last word on a table is its only update. */
  lemma {:induction false} SetAllAt(store: Store, updates: seq<TableTagUpdate>, key: string)
    requires DistinctTables(updates)
    ensures forall u <- updates :: Key(u) == key ==>
              key in SetAll(store, updates) && SetAll(store, updates)[key] == Current(store, key) + u.tags
    ensures (forall u <- updates :: Key(u) != key) ==>
              && (key in SetAll(store, updates) <==> key in store)
              && Current(SetAll(store, updates), key) == Current(store, key)
    decreases |updates|
  {
    hide Key;
    if updates != [] {
      var u, more := updates[0], updates[1..];
      assert updates == [u] + more;
      forall i, j | 0 <= i < j < |more| ensures Key(more[i]) != Key(more[j]) {
        assert more[i] == updates[i + 1] && more[j] == updates[j + 1];
      }
      forall v <- more ensures Key(v) != Key(u) {
        var j :| 0 <= j < |more| && more[j] == v;
        assert updates[j + 1] == v;
      }
      SetAllAt(Set(store, u), more, key);
    }
  }

  lemma ReorderingChangesNothing(store: Store, updates: seq<TableTagUpdate>, others: seq<TableTagUpdate>)
    requires DistinctTables(updates) && DistinctTables(others)
    requires forall u :: u in updates <==> u in others
    ensures SetAll(store, updates) == SetAll(store, others)
  {
    hide Key;
    var (a, b) := (SetAll(store, updates), SetAll(store, others));
    forall key: string ensures (key in a <==> key in b) && Current(a, key) == Current(b, key) {
      SetAllAt(store, updates, key);
      SetAllAt(store, others, key);
      if u :| u in updates && Key(u) == key {
        assert u in others;
      }
    }
    assert a.Keys == b.Keys;
    forall key | key in a ensures a[key] == b[key] {
      assert Current(a, key) == Current(b, key);
    }
  }

  lemma PermutationIsAccepted(updates: seq<TableTagUpdate>, others: seq<TableTagUpdate>)
    requires Accepted(updates) && multiset(updates) == multiset(others)
    ensures Accepted(others) && forall u :: u in updates <==> u in others
  {
    hide Blank, Key;
    forall u: TableTagUpdate ensures u in updates <==> u in others {
      assert u in updates <==> u in multiset(updates);
      assert u in others <==> u in multiset(others);
    }
    assert updates[0] in updates;
    forall i, j | 0 <= i < j < |others| ensures Key(others[i]) != Key(others[j]) {
      if Key(others[i]) == Key(others[j]) {
        assert others[i] in updates && others[j] in updates;
        if others[i] == others[j] {
          OccursTwice(others, i, j);
          OccursOnce(updates, others[i]);
        }
      }
    }
  }

  /**
    A batch update means its parts: the one statement changes a server's tags exactly as
    the single updates do one after the other, in whatever order they are applied.
   */
  lemma BatchMeansItsParts(interpolate: bool, store: Store, updates: seq<TableTagUpdate>, order: seq<TableTagUpdate>)
    requires Accepted(updates) && (forall u <- updates :: Nameable(u)) && multiset(order) == multiset(updates)
    ensures Effect(store, StatementText(updates), BoundAll(interpolate, StatementValues(updates))).Some?
    ensures Effect(store, StatementText(updates), BoundAll(interpolate, StatementValues(updates)))
         == OneByOne(interpolate, store, order)
  {
    hide Blank, Nameable, StatementText, StatementValues, BoundAll, ReadStatement, OneByOne, SetAll;
    StatementRoundTrip(interpolate, updates);
    PermutationIsAccepted(updates, order);
    OneByOneIsSetAll(interpolate, store, order);
    BoundKeepsTables(interpolate, updates, order);
    BoundKeepsTables(interpolate, order, updates);
    ReorderingChangesNothing(store, BoundUpdates(interpolate, updates), BoundUpdates(interpolate, order));
  }

  lemma BoundKeepsTables(interpolate: bool, updates: seq<TableTagUpdate>, order: seq<TableTagUpdate>)
    requires DistinctTables(updates) && forall u <- updates :: u in order
    ensures DistinctTables(BoundUpdates(interpolate, updates))
    ensures forall u <- BoundUpdates(interpolate, updates) :: u in BoundUpdates(interpolate, order)
  {
    hide BoundTags;
    var (a, b) := (BoundUpdates(interpolate, updates), BoundUpdates(interpolate, order));
    forall i, j | 0 <= i < j < |a| ensures Key(a[i]) != Key(a[j]) {
      assert Key(updates[i]) != Key(updates[j]);
    }
    forall u <- a ensures u in b {
      var i :| 0 <= i < |a| && a[i] == u;
      assert updates[i] in order;
      var j :| 0 <= j < |order| && order[j] == updates[i];
      assert b[j] == u;
    }
  }
}
