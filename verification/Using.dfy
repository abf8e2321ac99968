/**
  USING clauses (clause/using/using.go): a persistent ordered map of tags kept in a
  slice. Slices are arrays here, so sharing and mutation are visible to the proofs.
 */
module Using {
  import opened Common
  import opened Identifier
  import opened Builder
  import opened Parsing
  import opened SortedNames

  datatype Tag = Tag(name: string, value: Value)

  /** A value of the source's struct: copying it copies the reference to the slice. */
  datatype Using = Using(stable: string, slice: array<Tag>) {
    function Tags(): seq<Tag>
      reads slice
    {
      slice[..]
    }
  }

  // ------------------------------------------------------------- specification

  /** Replace the first tag of that name in place, or append a new one. */
  function Put(tags: seq<Tag>, name: string, value: Value): seq<Tag> {
    if tags == [] then [Tag(name, value)]
    else if tags[0].name == name then [Tag(name, value)] + tags[1..]
    else [tags[0]] + Put(tags[1..], name, value)
  }

  function Names(tags: seq<Tag>): (names: seq<string>)
    ensures |names| == |tags| && forall i :: 0 <= i < |tags| ==> names[i] == tags[i].name
  {
    if tags == [] then [] else [tags[0].name] + Names(tags[1..])
  }

  function Values(tags: seq<Tag>): (values: seq<Value>)
    ensures |values| == |tags| && forall i :: 0 <= i < |tags| ==> values[i] == tags[i].value
  {
    if tags == [] then [] else [tags[0].value] + Values(tags[1..])
  }

  function Lookup(tags: seq<Tag>, name: string): Option<Value> {
    if tags == [] then None else if tags[0].name == name then Some(tags[0].value) else Lookup(tags[1..], name)
  }

  /** The tags SetUsing makes of a map: the listing of its keys, with their values. */
  ghost function Ordered(tags: map<string, Value>, names: seq<string>): (ordered: seq<Tag>)
    requires forall name <- names :: name in tags
    ensures |ordered| == |names|
    ensures forall i :: 0 <= i < |names| ==> ordered[i] == Tag(names[i], tags[names[i]])
  {
    if names == [] then [] else [Tag(names[0], tags[names[0]])] + Ordered(tags, names[1..])
  }

  ghost function FromMap(tags: map<string, Value>): seq<Tag> {
    ListingMembers(tags.Keys);
    assert forall name <- Listing(tags.Keys) :: name in Elements(Listing(tags.Keys));
    Ordered(tags, Listing(tags.Keys))
  }

  // ----------------------------------------------------------- implementation

  /** A fresh slice: nothing that existed before is changed or shared. */
  method SetUsingTags(stable: string, tags: array<Tag>) returns (u: Using)
    ensures u.stable == stable && u.Tags() == tags[..] && fresh(u.slice)
  {
    var copy := Copy(tags);
    u := Using(stable, copy);
  }

  method Copy(tags: array<Tag>) returns (copy: array<Tag>)
    ensures fresh(copy) && copy[..] == tags[..]
  {
    copy := new Tag[tags.Length](i requires 0 <= i < tags.Length reads tags => tags[i]);
    assert copy[..] == tags[..];
  }

  method SetUsing(stable: string, tags: map<string, Value>) returns (u: Using)
    ensures u.stable == stable && u.Tags() == FromMap(tags) && fresh(u.slice)
  {
    var names := SortedKeys(tags);
    assert forall name <- names :: name in Elements(names);
    var ordered := new Tag[|names|](i requires 0 <= i < |names| => Tag(names[i], tags[names[i]]));
    assert ordered[..] == FromMap(tags);
    u := SetUsingTags(stable, ordered);
  }

  /** Adds or replaces a tag in a copy; the original clause, and its slice, stay as they were. */
  method AddTag(u: Using, name: string, value: Value) returns (r: Using)
    ensures r.stable == u.stable && fresh(r.slice)
    ensures r.Tags() == Put(u.Tags(), name, value)
  {
    var tags := Copy(u.slice);
    var i := 0;
    while i < tags.Length
      invariant 0 <= i <= tags.Length && tags[..] == u.Tags()
      invariant tags[..i] + Put(tags[i..], name, value) == Put(u.Tags(), name, value)
    {
      PutAt(u.Tags(), i, name, value);
      if tags[i].name == name {
        ReplacedAt(u.Tags(), i, Tag(name, value));
        tags[i] := Tag(name, value);
        assert tags[..] == u.Tags()[i := Tag(name, value)];
        r := u.(slice := tags);
        return;
      }
      i := i + 1;
    }
    assert tags[tags.Length..] == [] && tags[..tags.Length] == u.Tags();
    var longer := new Tag[tags.Length + 1](
      i requires 0 <= i <= tags.Length reads tags => if i < tags.Length then tags[i] else Tag(name, value));
    assert longer[..] == tags[..] + [Tag(name, value)];
    r := u.(slice := longer);
  }

  lemma ReplacedAt(tags: seq<Tag>, i: nat, tag: Tag)
    requires i < |tags|
    ensures tags[i := tag] == tags[..i] + ([tag] + tags[i + 1..])
  {
  }

  lemma PutAt(tags: seq<Tag>, i: nat, name: string, value: Value)
    requires i < |tags|
    ensures tags[i].name == name ==> Put(tags[i..], name, value) == [Tag(name, value)] + tags[i + 1..]
    ensures tags[i].name != name ==>
            tags[..i] + Put(tags[i..], name, value) == tags[..i + 1] + Put(tags[i + 1..], name, value)
  {
    assert tags[i..][1..] == tags[i + 1..];
    assert tags[..i + 1] == tags[..i] + [tags[i]];
    Associates(tags[..i], [tags[i]], Put(tags[i + 1..], name, value));
  }

  // ------------------------------------------------------------------ the laws

  /** Lookup after an update, for clauses with or without repeated names. */
  lemma {:induction false} LookupAfterPut(tags: seq<Tag>, name: string, value: Value, other: string)
    ensures Lookup(Put(tags, name, value), other) == if other == name then Some(value) else Lookup(tags, other)
  {
    if tags != [] && tags[0].name != name {
      LookupAfterPut(tags[1..], name, value, other);
      assert ([tags[0]] + Put(tags[1..], name, value))[1..] == Put(tags[1..], name, value);
    } else if tags != [] {
      assert ([Tag(name, value)] + tags[1..])[1..] == tags[1..];
    }
  }

  /** A known name keeps every position; a new name goes last. */
  lemma {:induction false} PutKeepsOrder(tags: seq<Tag>, name: string, value: Value)
    ensures Names(Put(tags, name, value)) == if name in Names(tags) then Names(tags) else Names(tags) + [name]
  {
    if tags == [] {
    } else if tags[0].name == name {
      assert Names(tags)[0] == name;
      assert ([Tag(name, value)] + tags[1..])[1..] == tags[1..];
    } else {
      PutKeepsOrder(tags[1..], name, value);
      assert ([tags[0]] + Put(tags[1..], name, value))[1..] == Put(tags[1..], name, value);
      assert name in Names(tags) <==> name in Names(tags[1..]) by {
        assert Names(tags) == [tags[0].name] + Names(tags[1..]);
      }
    }
  }

  /** A sequence of AddTag calls. */
  function PutAll(tags: seq<Tag>, calls: seq<(string, Value)>): seq<Tag> {
    if calls == [] then tags else Put(PutAll(tags, calls[..|calls| - 1]), calls[|calls| - 1].0, calls[|calls| - 1].1)
  }

  function UpdateAll(m: map<string, Value>, calls: seq<(string, Value)>): map<string, Value> {
    if calls == [] then m else UpdateAll(m, calls[..|calls| - 1])[calls[|calls| - 1].0 := calls[|calls| - 1].1]
  }

  lemma {:induction false} LookupOrdered(tags: map<string, Value>, names: seq<string>, name: string)
    requires forall n <- names :: n in tags
    ensures Lookup(Ordered(tags, names), name) == if name in names then Some(tags[name]) else None
  {
    if names != [] {
      var rest := Ordered(tags, names[1..]);
      LookupOrdered(tags, names[1..], name);
      assert Ordered(tags, names)[0] == Tag(names[0], tags[names[0]]) && Ordered(tags, names)[1..] == rest;
      assert name in names <==> name == names[0] || name in names[1..];
    }
  }

  lemma OrderedNames(tags: map<string, Value>)
    ensures Names(FromMap(tags)) == Listing(tags.Keys) && Distinct(Names(FromMap(tags)))
  {
    ListingMembers(tags.Keys);
  }

  /**
    A clause made by SetUsing and changed by any AddTag calls is the updated map: names
    are distinct and every lookup agrees.
   */
  lemma {:induction false} UsingIsAMap(tags: map<string, Value>, calls: seq<(string, Value)>, name: string)
    ensures Distinct(Names(PutAll(FromMap(tags), calls)))
    ensures var m := UpdateAll(tags, calls);
            Lookup(PutAll(FromMap(tags), calls), name) == if name in m then Some(m[name]) else None
  {
    if calls == [] {
      OrderedNames(tags);
      ListingMembers(tags.Keys);
      assert name in Listing(tags.Keys) <==> name in Elements(Listing(tags.Keys));
      assert forall n <- Listing(tags.Keys) :: n in Elements(Listing(tags.Keys));
      LookupOrdered(tags, Listing(tags.Keys), name);
    } else {
      var fewer, last := calls[..|calls| - 1], calls[|calls| - 1];
      UsingIsAMap(tags, fewer, name);
      LookupAfterPut(PutAll(FromMap(tags), fewer), last.0, last.1, name);
      PutKeepsOrder(PutAll(FromMap(tags), fewer), last.0, last.1);
    }
  }

  /** Replaced tags stay where they were: the names of a clause are a prefix of its later names. */
  lemma {:induction false} PositionsAreKept(tags: seq<Tag>, calls: seq<(string, Value)>)
    ensures Names(tags) <= Names(PutAll(tags, calls))
  {
    if calls != [] {
      PositionsAreKept(tags, calls[..|calls| - 1]);
      PutKeepsOrder(PutAll(tags, calls[..|calls| - 1]), calls[|calls| - 1].0, calls[|calls| - 1].1);
    }
  }

  /**
    Any number of AddTag calls on one clause: every clause along the way keeps its own
    tags although all of them came from the same value.
   */
  method AddTags(u: Using, calls: seq<(string, Value)>) returns (history: seq<Using>)
    ensures |history| == |calls| + 1 && history[0] == u
    ensures forall i :: 0 <= i <= |calls| ==> history[i].Tags() == PutAll(old(u.Tags()), calls[..i])
  {
    history := [u];
    for i := 0 to |calls|
      invariant |history| == i + 1 && history[0] == u
      invariant forall j :: 0 <= j <= i ==> history[j].Tags() == PutAll(old(u.Tags()), calls[..j])
    {
      var next := AddTag(history[i], calls[i].0, calls[i].1);
      assert calls[..i + 1][..i] == calls[..i];
      history := history + [next];
    }
  }

  // ------------------------------------------------------------------ printing

  function UsingText(stable: string, tags: seq<Tag>): string {
    "USING " + Quote(stable) + NamesInParens(Names(tags)) + " TAGS" + ListText(|tags|)
  }

  method Build(b: Builder, u: Using)
    modifies b
    ensures b.text == old(b.text) + UsingText(u.stable, u.Tags())
    ensures b.vars == old(b.vars) + BoundAll(b.interpolate, Values(u.Tags()))
    ensures b.errors == old(b.errors) + BindErrors(b.interpolate, Values(u.Tags()))
  {
    hide *;
    ghost var tags := u.Tags();
    var names, values := Names(u.slice[..]), Values(u.slice[..]);
    b.WriteString("USING ");
    b.WriteQuoted(u.stable);
    b.WriteParens(names);
    b.WriteString(" TAGS");
    b.AddList(values);
    UsingWritten(old(b.text), u.stable, tags);
    SameTags(u);
  }

  lemma SameTags(u: Using)
    ensures u.Tags() == u.slice[..]
  {
  }

  lemma UsingWritten(text: string, stable: string, tags: seq<Tag>)
    ensures text + "USING " + Quote(stable) + NamesInParens(Names(tags)) + " TAGS" + ListText(|Values(tags)|)
         == text + UsingText(stable, tags)
  {
    hide Quote, NamesInParens, Names, ListText;
    Associates5(text + "USING ", Quote(stable), NamesInParens(Names(tags)), " TAGS", ListText(|tags|));
    Associates5("USING ", Quote(stable), NamesInParens(Names(tags)), " TAGS", ListText(|tags|));
    Associates(text, "USING ", Quote(stable) + (NamesInParens(Names(tags)) + (" TAGS" + ListText(|tags|))));
  }

  // ------------------------------------------------------------------- parsing

  /** The supertable, the tag names and their values. */
  function Read(s: string, vars: seq<Value>): Option<(string, seq<string>, seq<Value>)> {
    var stable := Eat("USING ", s);
    if stable.None? || ReadName(stable.value).None? then None else
      var (name, afterName) := ReadName(stable.value).value;
      var names := ReadParens(afterName);
      if names.None? then None else
        var marks := Eat(" TAGS", names.value.1);
        if marks.None? || ReadList(|names.value.0|, marks.value) != Some("") || |vars| != |names.value.0| then None
        else Some((name, names.value.0, vars))
  }

  /** The k-th variable is the value of the k-th name. */
  lemma UsingRoundTrip(interpolate: bool, stable: string, tags: seq<Tag>)
    requires Dotted(stable) && forall name <- Names(tags) :: Dotted(name)
    ensures Read(UsingText(stable, tags), BoundAll(interpolate, Values(tags)))
         == Some((stable, Names(tags), BoundAll(interpolate, Values(tags))))
    ensures forall k :: 0 <= k < |tags| ==>
            && Names(tags)[k] == tags[k].name
            && BoundAll(interpolate, Values(tags))[k] == Bound(interpolate, tags[k].value)
  {
    hide Quote, NamesInParens, ListText, ReadName, ReadParens, ReadList, Dotted, BoundAll;
    var names := Names(tags);
    var (q, p, l) := (Quote(stable), NamesInParens(names), ListText(|tags|));
    Associates5("USING ", q, p, " TAGS", l);
    Eats("USING ", q + (p + (" TAGS" + l)));
    ParensEndName(names, " TAGS" + l);
    ReadsName(stable, p + (" TAGS" + l));
    ReadsParens(names, " TAGS" + l);
    Eats(" TAGS", l);
    ReadsList(|tags|, "");
    assert l + "" == l;
  }
}
