/** JSON to XML: convertToXml and the addFieldSetToXml family. The functions say which
    elements a schema node appends to its container; the methods append them in place. */
module JsonToXml {
  import opened Common
  import opened Strings
  import opened Json
  import opened Xml
  import opened Schema

  /** Left-to-right evaluation: the first failure wins, otherwise the elements of a then b. */
  function Then(a: Result<seq<Element>>, b: Result<seq<Element>>): Result<seq<Element>> {
    if a.Err? then a else if b.Err? then b else Ok(a.value + b.value)
  }

  lemma ThenUnit(x: Result<seq<Element>>)
    ensures Then(Ok([]), x) == x && Then(x, Ok([])) == x
  {
    if x.Ok? {
      assert [] + x.value == x.value + [] == x.value;
    }
  }

  lemma ThenAppend(d: seq<Element>, a: Result<seq<Element>>, b: Result<seq<Element>>)
    ensures Then(Ok(d), Then(a, b)) == Then(Then(Ok(d), a), b)
    ensures a.Ok? ==> Then(Ok(d), Then(a, b)) == Then(Ok(d + a.value), b)
  {
    if a.Ok? && b.Ok? {
      assert d + (a.value + b.value) == (d + a.value) + b.value;
    }
  }

  /** addFieldToXml: one element named by the services tag holding optString(id). */
  function FieldElement(f: FieldSet, input: JObject, ser: Serializer): Element
    requires f.Field?
  {
    Leaf(f.tag, OptString(input, f.id, ser))
  }

  /** The entries the repeat loop visits for in.opt(id): none when absent or blank, the string
      itself for a non-blank string, the items of an array; any other value is refused. */
  function RepeatEntries(input: JObject, id: string): (r: Result<seq<JValue>>)
    ensures id !in input ==> r == Ok([])
    ensures id in input && input[id].JStr? ==> r == (if IsBlank(input[id].s) then Ok([]) else Ok([input[id]]))
    ensures id in input && input[id].JArr? ==> r == Ok(input[id].items)
    ensures r.Err? <==> id in input && !input[id].JStr? && !input[id].JArr?
    ensures r.Err? ==> r.failure == BadRepeatValue(id)
  {
    if id !in input then Ok([])
    else match input[id]
      case JStr(s) => if IsBlank(s) then Ok([]) else Ok([input[id]])
      case JArr(items) => Ok(items)
      case _ => Err(BadRepeatValue(id))
  }

  /** addFieldSetToXml: the elements fs appends to its container for the given section. */
  function FieldSetElements(fs: FieldSet, input: JObject, section: string, ser: Serializer): (r: Result<seq<Element>>)
    decreases fs, 5, 0
    ensures fs.section != section ==> r == Ok([])
    ensures fs.section == section && fs.Field? ==> r == Ok([Leaf(fs.tag, OptString(input, fs.id, ser))])
  {
    if section != fs.section then Ok([])
    else if fs.Field? then Ok([FieldElement(fs, input, ser)])
    else RepeatElements(fs, input, section, ser)
  }

  /** addRepeatToXml: a wrapper named by the tag holding the repeat's content, or that content
      directly under the container when servicesNoRepeat is set. */
  function RepeatElements(rep: FieldSet, input: JObject, section: string, ser: Serializer): (r: Result<seq<Element>>)
    requires rep.Repeat?
    decreases rep, 4, 0
    ensures !rep.servicesNoRepeat && r.Ok? ==> |r.value| == 1 && r.value[0].name == rep.tag && r.value[0].attrs == []
    ensures !rep.uiNoRepeat && (rep.id !in input || (input[rep.id].JStr? && IsBlank(input[rep.id].s))) ==>
      r == Ok(if rep.servicesNoRepeat then [] else [Element(rep.tag, "", [], "", [])])
    ensures !rep.uiNoRepeat && rep.id in input && !input[rep.id].JStr? && !input[rep.id].JArr? ==>
      r == Err(BadRepeatValue(rep.id))
  {
    var body := RepeatContent(rep, input, section, ser);
    if body.Err? || rep.servicesNoRepeat then body
    else Ok([Element(rep.tag, "", [], "", body.value)])
  }

  /** What goes inside the wrapper: with uiNoRepeat the first child once against the whole
      input, otherwise every entry of the repeat's value. */
  function RepeatContent(rep: FieldSet, input: JObject, section: string, ser: Serializer): (r: Result<seq<Element>>)
    requires rep.Repeat?
    decreases rep, 3, 0
    ensures !rep.uiNoRepeat && RepeatEntries(input, rep.id).Err? ==> r == Err(RepeatEntries(input, rep.id).failure)
    ensures !rep.uiNoRepeat && RepeatEntries(input, rep.id) == Ok([]) ==> r == Ok([])
  {
    if rep.uiNoRepeat then
      (if |rep.children| == 0 then Ok([]) else FieldSetElements(rep.children[0], input, section, ser))
    else
      match RepeatEntries(input, rep.id)
      case Err(e) => Err(e)
      case Ok(entries) => EntriesElements(rep, entries, section, ser)
  }

  /** The array loop of addRepeatToXml: each entry's elements, in order, under one wrapper. */
  function EntriesElements(rep: FieldSet, entries: seq<JValue>, section: string, ser: Serializer): Result<seq<Element>>
    requires rep.Repeat?
    decreases rep, 2, |entries|
  {
    if |entries| == 0 then Ok([])
    else Then(EntryElements(rep, entries[0], section, ser), EntriesElements(rep, entries[1..], section, ser))
  }

  /** One array entry: a non-blank string fills the first child only, an object fills every
      child; null, blank strings, numbers and nested arrays append nothing. */
  function EntryElements(rep: FieldSet, entry: JValue, section: string, ser: Serializer): Result<seq<Element>>
    requires rep.Repeat?
    decreases rep, 1, 0
  {
    match entry
    case JStr(s) =>
      if IsBlank(s) || |rep.children| == 0 then Ok([])
      else FieldSetElements(rep.children[0], map[rep.children[0].id := entry], section, ser)
    case JObj(o) => ChildElements(rep, 0, o, section, ser)
    case _ => Ok([])
  }

  /** A non-blank string entry is the value of the first child alone: with a Field first child
      it becomes one element holding the string, the other children emit nothing. */
  lemma StringEntry(rep: FieldSet, s: string, section: string, ser: Serializer)
    requires rep.Repeat? && |rep.children| > 0 && rep.children[0].Field? && !IsBlank(s)
    ensures EntryElements(rep, JStr(s), section, ser) ==
      Ok(if rep.children[0].section == section then [Leaf(rep.children[0].tag, s)] else [])
  {
    var c := rep.children[0];
    assert OptString(map[c.id := JStr(s)], c.id, ser) == s;
  }

  /** A blank string, null, a number or a nested array as an entry emits nothing. */
  lemma SkippedEntry(rep: FieldSet, e: JValue, section: string, ser: Serializer)
    requires rep.Repeat?
    requires (e.JStr? && IsBlank(e.s)) || (!e.JStr? && !e.JObj?)
    ensures EntryElements(rep, e, section, ser) == Ok([])
  {
  }

  /** With uiNoRepeat the repeat's own value is never looked at: a Field first child is written
      once from the whole input, inside the wrapper, whatever the value under the repeat's id,
      even one that is neither a string nor an array. */
  lemma UiNoRepeatWrites(rep: FieldSet, input: JObject, section: string, ser: Serializer)
    requires rep.Repeat? && rep.uiNoRepeat && !rep.servicesNoRepeat
    requires |rep.children| > 0 && rep.children[0].Field? && rep.children[0].section == section
    ensures RepeatElements(rep, input, section, ser) ==
      Ok([Element(rep.tag, "", [], "", [Leaf(rep.children[0].tag, OptString(input, rep.children[0].id, ser))])])
  {
  }

  /** The children from position j on, each against the same object. */
  function ChildElements(rep: FieldSet, j: nat, o: JObject, section: string, ser: Serializer): Result<seq<Element>>
    requires rep.Repeat? && j <= |rep.children|
    decreases rep, 0, |rep.children| - j
  {
    if j == |rep.children| then Ok([])
    else Then(FieldSetElements(rep.children[j], o, section, ser), ChildElements(rep, j + 1, o, section, ser))
  }

  /** The record's top-level field sets, in schema order. */
  function FieldsElements(fields: seq<FieldSet>, input: JObject, section: string, ser: Serializer): Result<seq<Element>> {
    if |fields| == 0 then Ok([])
    else Then(FieldSetElements(fields[0], input, section, ser), FieldsElements(fields[1..], input, section, ser))
  }

  /** The namespace URI and root name of a services record path: the text after the first ':'
      split on ',' (trailing empty fields dropped) must have at least two fields. */
  function ParseRecordPath(path: string): (r: Result<(string, string)>)
    ensures r.Ok? ==> ':' in path && ',' !in r.value.0 && ',' !in r.value.1
    ensures r.Err? <==> ':' !in path || |Split(SplitOnce(path, ':')[1], ',')| < 2
    ensures r.Err? ==> r.failure == MalformedDescriptor(path)
  {
    var parts := SplitOnce(path, ':');
    if |parts| < 2 then Err(MalformedDescriptor(path))
    else
      var rootel := Split(parts[1], ',');
      if |rootel| < 2 then Err(MalformedDescriptor(path))
      else Ok((rootel[0], rootel[1]))
  }

  /** A path "<doc>:<namespace>,<root>" names the namespace first and the root second. */
  lemma RootNaming(doc: string, ns: string, root: string)
    requires ':' !in doc && ',' !in ns && ',' !in root && root != ""
    ensures ParseRecordPath(doc + [':'] + (ns + [','] + root)) == Ok((ns, root))
  {
    var rest := ns + [','] + root;
    var path := doc + [':'] + rest;
    var parts := SplitOnce(path, ':');
    assert path[|doc|] == ':';
    assert forall j :: 0 <= j < |doc| ==> path[j] == doc[j];
    assert IndexOf(path, ':') == |doc|;
    assert parts == [doc, rest] by {
      assert path[..|doc|] == doc && path[|doc| + 1..] == rest;
    }
    assert Join([ns, root], ',') == rest;
    FieldsJoin([ns, root], ',');
    assert ',' in rest by {
      assert rest[|ns|] == ',';
    }
  }

  /** The document's root is named and namespaced as its services record path says, and it
      holds the elements of the record's field sets; it fails exactly when they do. */
  lemma DocumentRoot(r: Record, input: JObject, section: string, ser: Serializer, doc: string, ns: string, root: string)
    requires ':' !in doc && ',' !in ns && ',' !in root && root != ""
    requires section in r.recordPaths && r.recordPaths[section] == doc + [':'] + (ns + [','] + root)
    ensures DocumentFor(r, input, section, ser).Ok? <==> FieldsElements(r.fields, input, section, ser).Ok?
    ensures DocumentFor(r, input, section, ser).Ok? ==>
      var e := DocumentFor(r, input, section, ser).value;
      e.name == root && e.ns == ns && e.attrs == [] && e.children == FieldsElements(r.fields, input, section, ser).value
  {
    RootNaming(doc, ns, root);
  }

  /** convertToXml: the document for one section; its root is named and namespaced from the
      section's services record path. */
  function DocumentFor(r: Record, input: JObject, section: string, ser: Serializer): Result<Element> {
    if section !in r.recordPaths then Err(MissingSection(section))
    else match ParseRecordPath(r.recordPaths[section])
      case Err(e) => Err(e)
      case Ok((ns, local)) =>
        match FieldsElements(r.fields, input, section, ser)
        case Err(e) => Err(e)
        case Ok(kids) => Ok(Element(local, ns, [], "", kids))
  }

  // ---------------------------------------------------------------------------------------
  // The converter as the source runs it: appending to a mutable element.

  method AddFieldToXml(root: ElementBuilder, f: FieldSet, input: JObject, ser: Serializer)
    requires f.Field?
    modifies root
    ensures root.children == old(root.children) + [FieldElement(f, input, ser)]
  {
    var value := OptString(input, f.id, ser);
    root.AddLeaf(f.tag, value);
  }

  method AddFieldSetToXml(root: ElementBuilder, fs: FieldSet, input: JObject, section: string, ser: Serializer)
    returns (o: Outcome)
    modifies root
    decreases fs, 5
    ensures o == OutcomeOf(FieldSetElements(fs, input, section, ser))
    ensures o.Pass? ==> root.children == old(root.children) + FieldSetElements(fs, input, section, ser).value
  {
    if section != fs.section {
      return Pass;
    }
    if fs.Field? {
      AddFieldToXml(root, fs, input, ser);
      o := Pass;
    } else {
      o := AddRepeatToXml(root, fs, input, section, ser);
    }
  }

  method AddRepeatToXml(root: ElementBuilder, rep: FieldSet, input: JObject, section: string, ser: Serializer)
    returns (o: Outcome)
    requires rep.Repeat?
    modifies root
    decreases rep, 4
    ensures o == OutcomeOf(RepeatElements(rep, input, section, ser))
    ensures o.Pass? ==> root.children == old(root.children) + RepeatElements(rep, input, section, ser).value
  {
    // Without servicesNoRepeat the content goes into a wrapper, appended to root once filled.
    var element := root;
    if !rep.servicesNoRepeat {
      element := new ElementBuilder(rep.tag, "");
    }
    ghost var base := element.children;
    assert element == root ==> base == old(root.children);
    assert element == root <==> rep.servicesNoRepeat;
    if rep.uiNoRepeat {
      o := Pass;
      if |rep.children| > 0 {
        o := AddFieldSetToXml(element, rep.children[0], input, section, ser);
      }
    } else {
      var entries: seq<JValue> := [];
      if rep.id in input {
        var value := input[rep.id];
        if value.JStr? && !IsBlank(value.s) {
          entries := [value];  // a single string stands for a one-element array
        } else if value.JArr? {
          entries := value.items;
        } else if !value.JStr? {
          return Fail(BadRepeatValue(rep.id));
        }
      }
      assert RepeatEntries(input, rep.id) == Ok(entries);
      o := AddEntriesToXml(element, rep, entries, section, ser);
    }
    assert o == OutcomeOf(RepeatContent(rep, input, section, ser));
    assert o.Pass? ==> element.children == base + RepeatContent(rep, input, section, ser).value;
    if o.Pass? && element != root {
      assert base == [] && element.name == rep.tag && element.ns == "";
      assert element.children == RepeatContent(rep, input, section, ser).value;
      assert RepeatElements(rep, input, section, ser).value == [element.Value()];
      root.Append(element.Value());
    }
  }

  /** The loop over the entries of the repeat's array. */
  method AddEntriesToXml(element: ElementBuilder, rep: FieldSet, entries: seq<JValue>, section: string, ser: Serializer)
    returns (o: Outcome)
    requires rep.Repeat?
    modifies element
    decreases rep, 2
    ensures o == OutcomeOf(EntriesElements(rep, entries, section, ser))
    ensures o.Pass? ==> element.children == old(element.children) + EntriesElements(rep, entries, section, ser).value
  {
    ghost var expected := EntriesElements(rep, entries, section, ser);
    ghost var done: seq<Element> := [];
    assert entries[0..] == entries;
    ThenUnit(expected);
    o := Pass;
    var i := 0;
    while i < |entries| && o.Pass?
      invariant 0 <= i <= |entries|
      invariant o.Pass? ==> element.children == old(element.children) + done
      invariant o.Pass? ==> expected == Then(Ok(done), EntriesElements(rep, entries[i..], section, ser))
      invariant o.Fail? ==> expected == Err(o.failure)
    {
      var one := entries[i];
      ghost var rest := EntriesElements(rep, entries[i + 1..], section, ser);
      assert entries[i..][1..] == entries[i + 1..];
      ghost var head := EntryElements(rep, one, section, ser);
      ThenAppend(done, head, rest);
      if one.JStr? && !IsBlank(one.s) && |rep.children| > 0 {
        // a plain string is taken as the value of the first child
        var d1 := map[rep.children[0].id := one];
        o := AddFieldSetToXml(element, rep.children[0], d1, section, ser);
      } else if one.JObj? {
        o := AddChildrenToXml(element, rep, one.fields, section, ser);
      } else {
        o := Pass;
      }
      if o.Pass? {
        done := done + head.value;
      }
      i := i + 1;
    }
    ThenUnit(Ok(done));
  }

  /** The loop over every child of the repeat for one object entry. */
  method AddChildrenToXml(element: ElementBuilder, rep: FieldSet, obj: JObject, section: string, ser: Serializer)
    returns (o: Outcome)
    requires rep.Repeat?
    modifies element
    decreases rep, 0
    ensures o == OutcomeOf(ChildElements(rep, 0, obj, section, ser))
    ensures o.Pass? ==> element.children == old(element.children) + ChildElements(rep, 0, obj, section, ser).value
  {
    ghost var expected := ChildElements(rep, 0, obj, section, ser);
    ghost var done: seq<Element> := [];
    ThenUnit(expected);
    o := Pass;
    var j := 0;
    while j < |rep.children| && o.Pass?
      invariant 0 <= j <= |rep.children|
      invariant o.Pass? ==> element.children == old(element.children) + done
      invariant o.Pass? ==> expected == Then(Ok(done), ChildElements(rep, j, obj, section, ser))
      invariant o.Fail? ==> expected == Err(o.failure)
    {
      ghost var head := FieldSetElements(rep.children[j], obj, section, ser);
      ThenAppend(done, head, ChildElements(rep, j + 1, obj, section, ser));
      o := AddFieldSetToXml(element, rep.children[j], obj, section, ser);
      if o.Pass? {
        done := done + head.value;
      }
      j := j + 1;
    }
    ThenUnit(Ok(done));
  }

  /** convertToXml, appending each field set's elements to a fresh root. */
  method ConvertToXml(r: Record, input: JObject, section: string, ser: Serializer) returns (res: Result<Element>)
    ensures res == DocumentFor(r, input, section, ser)
  {
    if section !in r.recordPaths {
      return Err(MissingSection(section));
    }
    var path := r.recordPaths[section];
    var parts := SplitOnce(path, ':');
    if |parts| < 2 {
      return Err(MalformedDescriptor(path));
    }
    var rootel := Split(parts[1], ',');
    if |rootel| < 2 {
      return Err(MalformedDescriptor(path));
    }
    var root := new ElementBuilder(rootel[1], rootel[0]);
    var i := 0;
    assert r.fields[0..] == r.fields;
    ThenUnit(FieldsElements(r.fields, input, section, ser));
    while i < |r.fields|
      invariant 0 <= i <= |r.fields|
      invariant FieldsElements(r.fields, input, section, ser) == Then(Ok(root.children), FieldsElements(r.fields[i..], input, section, ser))
    {
      assert r.fields[i..][1..] == r.fields[i + 1..];
      ThenAppend(root.children, FieldSetElements(r.fields[i], input, section, ser), FieldsElements(r.fields[i + 1..], input, section, ser));
      var o := AddFieldSetToXml(root, r.fields[i], input, section, ser);
      if o.Fail? {
        return Err(o.failure);
      }
      i := i + 1;
    }
    ThenUnit(Ok(root.children));
    res := Ok(root.Value());
  }
}
