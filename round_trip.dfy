/** What a JSON -> XML -> JSON round trip gives back: a repeat of two or more plain fields
    comes back as the same objects in the same order, appended before whatever the target
    already holds, while a repeat of one field comes back as its last entry only; a record of
    plain fields comes back field by field, an absent field as "". */
module RoundTrip {
  import opened Common
  import opened Json
  import opened Xml
  import opened Schema
  import opened DeUrn
  import opened JsonToXml
  import opened RepeatExtract
  import opened XmlToJson

  /** A field that reads back what it writes: its tag is its id (elements are grouped by id
      but looked up by tag), it has no autocomplete instance, and it belongs to the section. */
  ghost predicate PlainField(f: FieldSet, section: string) {
    f.Field? && f.tag == f.id && f.autocomplete.None? && f.section == section
  }

  /** A repeat of plain fields with distinct ids, neither flag set. */
  ghost predicate PlainRepeat(rep: FieldSet, section: string) {
    && rep.Repeat? && !rep.servicesNoRepeat && !rep.uiNoRepeat
    && (forall k :: 0 <= k < |rep.children| ==> PlainField(rep.children[k], section))
    && (forall k, l :: 0 <= k < l < |rep.children| ==> rep.children[k].id != rep.children[l].id)
  }

  /** A plain repeat of at least two fields: the shape whose entries survive the round trip.
      With a single child every element has the same schema index, so extractRepeats never
      starts a second group (see OneChildCollapse). */
  ghost predicate FlatRepeat(rep: FieldSet, section: string) {
    PlainRepeat(rep, section) && |rep.children| >= 2
  }

  /** An entry that fills the repeat: an object whose keys are exactly the children's ids,
      each holding a string. */
  ghost predicate Full(rep: FieldSet, e: JValue)
    requires rep.Repeat?
  {
    && e.JObj?
    && (forall x :: x in e.fields <==> exists k :: 0 <= k < |rep.children| && rep.children[k].id == x)
    && (forall x :: x in e.fields ==> e.fields[x].JStr?)
  }

  // ---------------------------------------------------------------------------------------
  // The write side.

  /** The elements of children j.. of rep for one object entry. */
  function Leaves(rep: FieldSet, j: nat, m: JObject, ser: Serializer): (r: seq<Element>)
    requires rep.Repeat? && j <= |rep.children|
    decreases |rep.children| - j
    ensures |r| == |rep.children| - j
    ensures forall i :: 0 <= i < |r| ==>
      r[i] == Leaf(rep.children[j + i].tag, OptString(m, rep.children[j + i].id, ser))
  {
    if j == |rep.children| then []
    else [Leaf(rep.children[j].tag, OptString(m, rep.children[j].id, ser))] + Leaves(rep, j + 1, m, ser)
  }

  /** The wrapper's content for a sequence of object entries. */
  function Blocks(rep: FieldSet, entries: seq<JValue>, ser: Serializer): seq<Element>
    requires rep.Repeat?
  {
    if |entries| == 0 then []
    else (if entries[0].JObj? then Leaves(rep, 0, entries[0].fields, ser) else []) + Blocks(rep, entries[1..], ser)
  }

  function Wrapper(rep: FieldSet, entries: seq<JValue>, ser: Serializer): Element
    requires rep.Repeat?
  {
    Element(rep.tag, "", [], "", Blocks(rep, entries, ser))
  }

  lemma {:induction false} ChildElementsLeaves(rep: FieldSet, j: nat, m: JObject, section: string, ser: Serializer)
    requires PlainRepeat(rep, section) && j <= |rep.children|
    ensures ChildElements(rep, j, m, section, ser) == Ok(Leaves(rep, j, m, ser))
    decreases |rep.children| - j
  {
    if j < |rep.children| {
      ChildElementsLeaves(rep, j + 1, m, section, ser);
      assert PlainField(rep.children[j], section);
    }
  }

  lemma {:induction false} EntriesElementsBlocks(rep: FieldSet, entries: seq<JValue>, section: string, ser: Serializer)
    requires PlainRepeat(rep, section)
    requires forall i :: 0 <= i < |entries| ==> entries[i].JObj?
    ensures EntriesElements(rep, entries, section, ser) == Ok(Blocks(rep, entries, ser))
  {
    if |entries| > 0 {
      EntriesElementsBlocks(rep, entries[1..], section, ser);
      ChildElementsLeaves(rep, 0, entries[0].fields, section, ser);
    }
  }

  /** JSON -> XML of a flat repeat holding object entries: one wrapper holding, entry after
      entry, one element per child in schema order. */
  lemma RepeatWrites(rep: FieldSet, input: JObject, section: string, ser: Serializer)
    requires PlainRepeat(rep, section)
    requires rep.id in input && input[rep.id].JArr?
    requires forall i :: 0 <= i < |input[rep.id].items| ==> input[rep.id].items[i].JObj?
    ensures RepeatElements(rep, input, section, ser) == Ok([Wrapper(rep, input[rep.id].items, ser)])
  {
    EntriesElementsBlocks(rep, input[rep.id].items, section, ser);
  }

  // ---------------------------------------------------------------------------------------
  // The read side.

  function FieldsOf(e: JValue): JObject {
    if e.JObj? then e.fields else map[]
  }

  /** Child k of a flat repeat sits at position k + 1 of its field list. */
  lemma IndexOfChild(rep: FieldSet, section: string, k: nat)
    requires FlatRepeat(rep, section) && k < |rep.children|
    ensures var index := FieldIndex(FieldList(rep));
            rep.children[k].id in index && index[rep.children[k].id] == k + 1
  {
    FieldIdsOfFields(rep.children);
    var fields := FieldList(rep);
    var index := FieldIndex(fields);
    var x := rep.children[k].id;
    assert fields[k + 1] == x;
  }

  /** One entry's elements from child j on, tagged with their schema index: child k at k + 1. */
  function TaggedFrom(rep: FieldSet, j: nat, m: JObject, ser: Serializer): (r: seq<Tagged>)
    requires rep.Repeat? && j <= |rep.children|
    decreases |rep.children| - j
    ensures |r| == |rep.children| - j
    ensures forall i :: 0 <= i < |r| ==>
      r[i] == (j + i + 1, Leaf(rep.children[j + i].tag, OptString(m, rep.children[j + i].id, ser)))
  {
    if j == |rep.children| then []
    else [(j + 1, Leaf(rep.children[j].tag, OptString(m, rep.children[j].id, ser)))] + TaggedFrom(rep, j + 1, m, ser)
  }

  function TaggedBlock(rep: FieldSet, m: JObject, ser: Serializer): seq<Tagged>
    requires rep.Repeat?
  {
    TaggedFrom(rep, 0, m, ser)
  }

  function TaggedBlocks(rep: FieldSet, entries: seq<JValue>, ser: Serializer): (r: seq<seq<Tagged>>)
    requires rep.Repeat?
    ensures |r| == |entries|
    ensures forall q :: 0 <= q < |r| ==> r[q] == TaggedBlock(rep, FieldsOf(entries[q]), ser)
  {
    if |entries| == 0 then []
    else [TaggedBlock(rep, FieldsOf(entries[0]), ser)] + TaggedBlocks(rep, entries[1..], ser)
  }

  lemma {:induction false} FlattenCons(a: seq<Tagged>, rs: seq<seq<Tagged>>)
    ensures Flatten([a] + rs) == a + Flatten(rs)
  {
    if |rs| > 0 {
      var n := |rs| - 1;
      FlattenCons(a, rs[..n]);
      assert ([a] + rs)[..|[a] + rs| - 1] == [a] + rs[..n];
    }
  }

  /** An index that places child k at k + 1, as the field list of a flat repeat does. */
  ghost predicate PlacesChildren(rep: FieldSet, index: map<string, nat>)
    requires rep.Repeat?
  {
    forall k :: 0 <= k < |rep.children| ==> rep.children[k].tag in index && index[rep.children[k].tag] == k + 1
  }

  lemma FlatIndex(rep: FieldSet, section: string)
    requires FlatRepeat(rep, section)
    ensures PlacesChildren(rep, FieldIndex(FieldList(rep)))
  {
    forall k | 0 <= k < |rep.children|
      ensures rep.children[k].tag in FieldIndex(FieldList(rep))
      ensures FieldIndex(FieldList(rep))[rep.children[k].tag] == k + 1
    {
      IndexOfChild(rep, section, k);
      assert PlainField(rep.children[k], section);
    }
  }

  lemma {:induction false} KnownLeaves(rep: FieldSet, index: map<string, nat>, m: JObject, ser: Serializer, j: nat)
    requires rep.Repeat? && PlacesChildren(rep, index) && j <= |rep.children|
    ensures Known(index, Leaves(rep, j, m, ser)) == TaggedFrom(rep, j, m, ser)
    decreases |rep.children| - j
  {
    if j < |rep.children| {
      KnownLeaves(rep, index, m, ser, j + 1);
      var l := Leaf(rep.children[j].tag, OptString(m, rep.children[j].id, ser));
      assert Known(index, [l]) == [(j + 1, l)] by {
        assert [l][..0] == [];
      }
      KnownAppend(index, [l], Leaves(rep, j + 1, m, ser));
    }
  }

  lemma {:induction false} KnownBlocks(rep: FieldSet, section: string, entries: seq<JValue>, ser: Serializer)
    requires FlatRepeat(rep, section)
    requires forall i :: 0 <= i < |entries| ==> entries[i].JObj?
    ensures Known(FieldIndex(FieldList(rep)), Blocks(rep, entries, ser)) == Flatten(TaggedBlocks(rep, entries, ser))
  {
    var index := FieldIndex(FieldList(rep));
    if |entries| > 0 {
      KnownBlocks(rep, section, entries[1..], ser);
      var m := entries[0].fields;
      FlatIndex(rep, section);
      KnownLeaves(rep, index, m, ser, 0);
      KnownAppend(index, Leaves(rep, 0, m, ser), Blocks(rep, entries[1..], ser));
      var tbs := TaggedBlocks(rep, entries, ser);
      assert tbs == [TaggedBlock(rep, m, ser)] + TaggedBlocks(rep, entries[1..], ser);
      FlattenCons(TaggedBlock(rep, m, ser), TaggedBlocks(rep, entries[1..], ser));
    }
  }

  /** Each entry's elements form exactly one run, so the wrapper's groups are the entries. */
  lemma WrapperGroups(rep: FieldSet, section: string, entries: seq<JValue>, ser: Serializer)
    requires FlatRepeat(rep, section)
    requires forall i :: 0 <= i < |entries| ==> entries[i].JObj?
    ensures RepeatGroups(Wrapper(rep, entries, ser), rep) == GroupsOf(TaggedBlocks(rep, entries, ser))
  {
    var w := Wrapper(rep, entries, ser);
    var ks := Known(FieldIndex(FieldList(rep)), w.children);
    var tbs := TaggedBlocks(rep, entries, ser);
    KnownBlocks(rep, section, entries, ser);
    var k := |rep.children|;
    forall q | 0 < q < |tbs|
      ensures DropsAt(tbs, q)
    {
      assert tbs[q][0].0 == 1 && LastIndex(tbs[q - 1]) == k;
    }
    forall q | 0 <= q < |tbs|
      ensures |tbs[q]| > 0 && NonDecreasing(tbs[q])
    {
    }
    RunPartitionUnique(ks, tbs);
    GroupsAreRuns(w, rep);
  }

  /** The group of one entry holds, under each child's tag, that child's element. */
  ghost predicate GroupFor(rep: FieldSet, g: Group, m: JObject, ser: Serializer)
    requires rep.Repeat?
  {
    forall k :: 0 <= k < |rep.children| ==>
      rep.children[k].tag in g && g[rep.children[k].tag] == Leaf(rep.children[k].tag, OptString(m, rep.children[k].id, ser))
  }

  lemma BlockGroup(rep: FieldSet, section: string, m: JObject, ser: Serializer)
    requires FlatRepeat(rep, section)
    ensures GroupFor(rep, GroupOf(TaggedBlock(rep, m, ser)), m, ser)
  {
    var tb := TaggedBlock(rep, m, ser);
    forall k | 0 <= k < |rep.children|
      ensures rep.children[k].tag in GroupOf(tb)
      ensures GroupOf(tb)[rep.children[k].tag] == Leaf(rep.children[k].tag, OptString(m, rep.children[k].id, ser))
    {
      assert PlainField(rep.children[k], section);
      forall j | k < j < |tb|
        ensures tb[j].1.name != tb[k].1.name
      {
        assert PlainField(rep.children[j], section);
      }
      GroupOfLast(tb, k);
    }
  }

  /** The entry restricted to the ids of its first j children. */
  function Prefix(rep: FieldSet, j: nat, m: JObject): JObject
    requires rep.Repeat? && j <= |rep.children|
  {
    if j == 0 then map[]
    else
      var id := rep.children[j - 1].id;
      Prefix(rep, j - 1, m)[id := if id in m then m[id] else JNull]
  }

  lemma {:induction false} PrefixKeys(rep: FieldSet, j: nat, m: JObject)
    requires rep.Repeat? && j <= |rep.children|
    ensures forall x :: x in Prefix(rep, j, m) <==> exists k :: 0 <= k < j && rep.children[k].id == x
    ensures forall x :: x in Prefix(rep, j, m) && x in m ==> Prefix(rep, j, m)[x] == m[x]
  {
    if j > 0 {
      PrefixKeys(rep, j - 1, m);
    }
  }

  /** Once every child has been read, the group's object is the entry. */
  lemma MemberComplete(rep: FieldSet, section: string, m: JObject)
    requires FlatRepeat(rep, section) && Full(rep, JObj(m))
    ensures Prefix(rep, |rep.children|, m) == m && |m| > 0
  {
    PrefixKeys(rep, |rep.children|, m);
    var p := Prefix(rep, |rep.children|, m);
    assert p.Keys == m.Keys;
    assert rep.children[0].id in m;
  }

  lemma MemberLast(rep: FieldSet, section: string, g: Group, container: Element, slots: seq<Slot>, m: JObject,
                   dec: UrnDecoder)
    requires FlatRepeat(rep, section) && Full(rep, JObj(m))
    ensures MemberJson(g, container, rep, |rep.children|, Prefix(rep, |rep.children|, m), slots, [], dec)
         == Ok(Collected(slots + [Member(m)], []))
  {
    MemberComplete(rep, section, m);
  }

  /** Reading child j of a group: a plain field child stores its element's text under its id. */
  lemma MemberStep(g: Group, container: Element, rep: FieldSet, j: nat, member: JObject, slots: seq<Slot>,
                   text: string, dec: UrnDecoder)
    requires rep.Repeat? && !rep.uiNoRepeat && j < |rep.children| && container.attrs == []
    requires rep.children[j].Field? && rep.children[j].autocomplete.None?
    requires rep.children[j].tag in g && g[rep.children[j].tag].text == text
    ensures MemberJson(g, container, rep, j, member, slots, [], dec)
         == MemberJson(g, container, rep, j + 1, member[rep.children[j].id := JStr(text)], slots, [], dec)
  {
    var fs := rep.children[j];
    var next := member[fs.id := JStr(text)];
    assert ChildJson(g[fs.tag], rep, j, member, [], dec) == Ok((next, [])) by {
      assert WithDeUrned(member, fs, text, dec) == Ok(member);
    }
    assert next + AttrMap(container.attrs) == next by {
      assert AttrMap(container.attrs) == map[];
    }
  }

  /** Reading one entry's group back: every child's text lands under the child's id, so the
      group's object is the entry again. */
  lemma {:induction false} MemberJsonFull(rep: FieldSet, section: string, g: Group, container: Element, j: nat,
                                          slots: seq<Slot>, m: JObject, ser: Serializer, dec: UrnDecoder)
    requires FlatRepeat(rep, section) && j <= |rep.children| && container.attrs == []
    requires Full(rep, JObj(m)) && GroupFor(rep, g, m, ser)
    ensures MemberJson(g, container, rep, j, Prefix(rep, j, m), slots, [], dec) == Ok(Collected(slots + [Member(m)], []))
    decreases |rep.children| - j
  {
    if j == |rep.children| {
      MemberLast(rep, section, g, container, slots, m, dec);
    } else {
      var fs := rep.children[j];
      var text := g[fs.tag].text;
      assert fs.id in m && m[fs.id] == JStr(text) by {
        assert PlainField(fs, section);
      }
      MemberFullStep(rep, g, container, j, slots, m, text, dec);
      MemberJsonFull(rep, section, g, container, j + 1, slots, m, ser, dec);
    }
  }

  /** One child of a full entry's group read back: the prefix of the entry grows by that child. */
  lemma MemberFullStep(rep: FieldSet, g: Group, container: Element, j: nat, slots: seq<Slot>, m: JObject,
                       text: string, dec: UrnDecoder)
    requires rep.Repeat? && !rep.uiNoRepeat && j < |rep.children| && container.attrs == []
    requires rep.children[j].Field? && rep.children[j].autocomplete.None?
    requires rep.children[j].tag in g && g[rep.children[j].tag].text == text
    requires rep.children[j].id in m && m[rep.children[j].id] == JStr(text)
    ensures MemberJson(g, container, rep, j, Prefix(rep, j, m), slots, [], dec)
         == MemberJson(g, container, rep, j + 1, Prefix(rep, j + 1, m), slots, [], dec)
  {
    assert Prefix(rep, j + 1, m) == Prefix(rep, j, m)[rep.children[j].id := JStr(text)];
    MemberStep(g, container, rep, j, Prefix(rep, j, m), slots, text, dec);
  }

  /** The slots of a sequence of object entries, one Member each. */
  function Members(entries: seq<JValue>): (r: seq<Slot>)
    ensures |r| == |entries|
    ensures forall q :: 0 <= q < |entries| ==> r[q] == Member(FieldsOf(entries[q]))
  {
    if |entries| == 0 then [] else [Member(FieldsOf(entries[0]))] + Members(entries[1..])
  }

  lemma {:induction false} GroupsJsonFull(rep: FieldSet, section: string, gs: seq<Group>, container: Element,
                                          slots: seq<Slot>, entries: seq<JValue>, ser: Serializer, dec: UrnDecoder)
    requires FlatRepeat(rep, section) && container.attrs == [] && |gs| == |entries|
    requires forall q :: 0 <= q < |entries| ==> Full(rep, entries[q]) && GroupFor(rep, gs[q], entries[q].fields, ser)
    ensures GroupsJson(gs, container, rep, slots, [], dec) == Ok(Collected(slots + Members(entries), []))
  {
    if |gs| > 0 {
      var m := entries[0].fields;
      assert Full(rep, JObj(m)) && GroupFor(rep, gs[0], m, ser) by {
        assert Full(rep, entries[0]) && entries[0] == JObj(m);
      }
      GroupsFullStep(rep, section, gs, container, slots, m, ser, dec);
      GroupsJsonFull(rep, section, gs[1..], container, slots + [Member(m)], entries[1..], ser, dec);
      MembersCons(slots, entries);
    } else {
      assert slots + Members(entries) == slots;
    }
  }

  /** The first group of full entries read back: one more Member slot. */
  lemma GroupsFullStep(rep: FieldSet, section: string, gs: seq<Group>, container: Element,
                       slots: seq<Slot>, m: JObject, ser: Serializer, dec: UrnDecoder)
    requires FlatRepeat(rep, section) && container.attrs == [] && |gs| > 0
    requires Full(rep, JObj(m)) && GroupFor(rep, gs[0], m, ser)
    ensures GroupsJson(gs, container, rep, slots, [], dec) == GroupsJson(gs[1..], container, rep, slots + [Member(m)], [], dec)
  {
    assert Prefix(rep, 0, m) == map[];
    MemberJsonFull(rep, section, gs[0], container, 0, slots, m, ser, dec);
  }

  lemma MembersCons(slots: seq<Slot>, entries: seq<JValue>)
    requires |entries| > 0
    ensures slots + [Member(FieldsOf(entries[0]))] + Members(entries[1..]) == slots + Members(entries)
  {
    assert Members(entries) == [Member(FieldsOf(entries[0]))] + Members(entries[1..]);
  }

  lemma ResolveMembers(rep: FieldSet, entries: seq<JValue>)
    requires rep.Repeat?
    requires forall q :: 0 <= q < |entries| ==> Full(rep, entries[q])
    ensures Resolve(Members(entries), []) == entries
  {
    var r := Resolve(Members(entries), []);
    forall q | 0 <= q < |entries|
      ensures r[q] == entries[q]
    {
      assert Full(rep, entries[q]);
    }
  }

  /** The wrapper's groups read back as one Member slot per entry, in order. */
  lemma WrapperGroupsJson(rep: FieldSet, section: string, entries: seq<JValue>, ser: Serializer, dec: UrnDecoder)
    requires FlatRepeat(rep, section)
    requires forall q :: 0 <= q < |entries| ==> Full(rep, entries[q])
    ensures var w := Wrapper(rep, entries, ser);
            GroupsJson(RepeatGroups(w, rep), w, rep, [], [], dec) == Ok(Collected(Members(entries), []))
  {
    WrapperGroups(rep, section, entries, ser);
    BlocksGroups(rep, section, entries, ser);
    ReadGroups(rep, section, Wrapper(rep, entries, ser), GroupsOf(TaggedBlocks(rep, entries, ser)), entries, ser, dec);
  }

  /** The group of each entry's block holds that entry's elements. */
  lemma BlocksGroups(rep: FieldSet, section: string, entries: seq<JValue>, ser: Serializer)
    requires FlatRepeat(rep, section)
    ensures var gs := GroupsOf(TaggedBlocks(rep, entries, ser));
            |gs| == |entries| && forall q :: 0 <= q < |entries| ==> GroupFor(rep, gs[q], FieldsOf(entries[q]), ser)
  {
    var gs := GroupsOf(TaggedBlocks(rep, entries, ser));
    forall q | 0 <= q < |entries|
      ensures GroupFor(rep, gs[q], FieldsOf(entries[q]), ser)
    {
      BlockGroup(rep, section, FieldsOf(entries[q]), ser);
    }
  }

  /** Groups that each hold one full entry read back as one Member slot per entry. */
  lemma ReadGroups(rep: FieldSet, section: string, w: Element, gs: seq<Group>, entries: seq<JValue>,
                   ser: Serializer, dec: UrnDecoder)
    requires FlatRepeat(rep, section) && w.attrs == [] && RepeatGroups(w, rep) == gs && |gs| == |entries|
    requires forall q :: 0 <= q < |entries| ==> Full(rep, entries[q])
    requires forall q :: 0 <= q < |entries| ==> GroupFor(rep, gs[q], FieldsOf(entries[q]), ser)
    ensures GroupsJson(RepeatGroups(w, rep), w, rep, [], [], dec) == Ok(Collected(Members(entries), []))
  {
    forall q | 0 <= q < |entries| ensures GroupFor(rep, gs[q], entries[q].fields, ser) {
      assert Full(rep, entries[q]);
    }
    GroupsJsonFull(rep, section, gs, w, [], entries, ser, dec);
    assert [] + Members(entries) == Members(entries);
  }

  /** The wrapper's groups read back as one object per entry, in order. */
  lemma WrapperReads(rep: FieldSet, section: string, entries: seq<JValue>, out: JObject, ser: Serializer, dec: UrnDecoder)
    requires FlatRepeat(rep, section)
    requires forall q :: 0 <= q < |entries| ==> Full(rep, entries[q])
    ensures RepeatedNodeJson(out, Wrapper(rep, entries, ser), rep, dec) == Merge(out, rep.id, entries)
  {
    WrapperGroupsJson(rep, section, entries, ser, dec);
    ResolveMembers(rep, entries);
  }

  /** The wrapper a flat repeat writes reads back as its entries, placed before the items
      already stored under the repeat's id (the merge of addRepeatedNodeToJson). */
  lemma RepeatReads(rep: FieldSet, section: string, entries: seq<JValue>, root: Element, out: JObject,
                    ser: Serializer, dec: UrnDecoder)
    requires FlatRepeat(rep, section)
    requires forall q :: 0 <= q < |entries| ==> Full(rep, entries[q])
    requires SelectNodes(root, rep.tag) == [Wrapper(rep, entries, ser)]
    requires rep.id in out ==> out[rep.id].JArr?
    ensures RepeatJson(out, root, rep, dec) ==
      Ok(out[rep.id := JArr(entries + (if rep.id in out then out[rep.id].items else []))])
  {
    var w := Wrapper(rep, entries, ser);
    WrapperReads(rep, section, entries, out, ser, dec);
    var o := Merge(out, rep.id, entries);
    assert o == Ok(out[rep.id := JArr(entries + (if rep.id in out then out[rep.id].items else []))]) by {
      if rep.id !in out {
        assert entries + [] == entries;
      }
    }
    assert [w][1..] == [];
    assert ContainersJson(o.value, [], rep, dec) == o;
    assert ContainersJson(out, [w], rep, dec) == o;
  }

  /** The document of a record whose one field set is a flat repeat: the root holds just the
      wrapper. */
  lemma RepeatDocument(r: Record, input: JObject, section: string, ser: Serializer)
    requires |r.fields| == 1 && PlainRepeat(r.fields[0], section) && r.fields[0].section == section
    requires section in r.recordPaths && ParseRecordPath(r.recordPaths[section]).Ok?
    requires r.fields[0].id in input && input[r.fields[0].id].JArr?
    requires forall q :: 0 <= q < |input[r.fields[0].id].items| ==> input[r.fields[0].id].items[q].JObj?
    ensures DocumentFor(r, input, section, ser).Ok?
    ensures var w := Wrapper(r.fields[0], input[r.fields[0].id].items, ser);
            var doc := DocumentFor(r, input, section, ser).value;
            doc.children == [w] && SelectNodes(doc, r.fields[0].tag) == [w]
  {
    var rep := r.fields[0];
    RepeatWrites(rep, input, section, ser);
    var w := Wrapper(rep, input[rep.id].items, ser);
    assert FieldSetElements(rep, input, section, ser) == Ok([w]);
    assert FieldsElements(r.fields, input, section, ser) == Ok([w]) by {
      assert r.fields[1..] == [];
      assert [w] + [] == [w];
    }
    assert [w][1..] == [];
  }

  /** The headline round trip: a record whose one field set is a flat repeat, its value an
      array of full object entries, converted to the section's document and back into a fresh
      object, gives back exactly that array: the same objects, in the same order. */
  lemma RepeatRoundTrip(r: Record, input: JObject, section: string, ser: Serializer, dec: UrnDecoder)
    requires |r.fields| == 1 && FlatRepeat(r.fields[0], section) && r.fields[0].section == section
    requires section in r.recordPaths && ParseRecordPath(r.recordPaths[section]).Ok?
    requires r.fields[0].id in input && input[r.fields[0].id].JArr?
    requires forall q :: 0 <= q < |input[r.fields[0].id].items| ==> Full(r.fields[0], input[r.fields[0].id].items[q])
    ensures DocumentFor(r, input, section, ser).Ok?
    ensures FieldsJson(map[], r.fields, DocumentFor(r, input, section, ser).value, dec)
         == Ok(map[r.fields[0].id := input[r.fields[0].id]])
  {
    RoundTripInto(r, input, section, map[], ser, dec);
    assert input[r.fields[0].id].items + [] == input[r.fields[0].id].items;
  }

  /** Reading the document into an object that already holds an array under the repeat's id
      puts the entries in front of the old items; other keys stay as they were. */
  lemma RoundTripInto(r: Record, input: JObject, section: string, out: JObject, ser: Serializer, dec: UrnDecoder)
    requires |r.fields| == 1 && FlatRepeat(r.fields[0], section) && r.fields[0].section == section
    requires section in r.recordPaths && ParseRecordPath(r.recordPaths[section]).Ok?
    requires r.fields[0].id in input && input[r.fields[0].id].JArr?
    requires forall q :: 0 <= q < |input[r.fields[0].id].items| ==> Full(r.fields[0], input[r.fields[0].id].items[q])
    requires r.fields[0].id in out ==> out[r.fields[0].id].JArr?
    ensures DocumentFor(r, input, section, ser).Ok?
    ensures var id := r.fields[0].id;
            var old_items := if id in out then out[id].items else [];
            FieldsJson(out, r.fields, DocumentFor(r, input, section, ser).value, dec) ==
              Ok(out[id := JArr(input[id].items + old_items)])
  {
    var rep := r.fields[0];
    var entries := input[rep.id].items;
    RepeatDocument(r, input, section, ser);
    var doc := DocumentFor(r, input, section, ser).value;
    RepeatReads(rep, section, entries, doc, out, ser, dec);
    FieldsJsonSingle(out, r.fields, doc, dec);
  }

  /** Reading a record of one repeat is reading that repeat. */
  lemma FieldsJsonSingle(out: JObject, fields: seq<FieldSet>, root: Element, dec: UrnDecoder)
    requires |fields| == 1 && fields[0].Repeat?
    ensures FieldsJson(out, fields, root, dec) == RepeatJson(out, root, fields[0], dec)
  {
    assert fields[1..] == [];
  }

  /** Converting the same document a second time, into the object the first conversion
      produced, doubles the array: the new objects first, then the old ones. */
  lemma RepeatRoundTripTwice(r: Record, input: JObject, section: string, ser: Serializer, dec: UrnDecoder)
    requires |r.fields| == 1 && FlatRepeat(r.fields[0], section) && r.fields[0].section == section
    requires section in r.recordPaths && ParseRecordPath(r.recordPaths[section]).Ok?
    requires r.fields[0].id in input && input[r.fields[0].id].JArr?
    requires forall q :: 0 <= q < |input[r.fields[0].id].items| ==> Full(r.fields[0], input[r.fields[0].id].items[q])
    ensures DocumentFor(r, input, section, ser).Ok?
    ensures var doc := DocumentFor(r, input, section, ser).value;
            var once := FieldsJson(map[], r.fields, doc, dec);
            var items := input[r.fields[0].id].items;
            once.Ok? && FieldsJson(once.value, r.fields, doc, dec) == Ok(map[r.fields[0].id := JArr(items + items)])
  {
    var id := r.fields[0].id;
    RepeatRoundTrip(r, input, section, ser, dec);
    var once := map[id := input[id]];
    RoundTripInto(r, input, section, once, ser, dec);
    assert once[id := JArr(input[id].items + input[id].items)] == map[id := JArr(input[id].items + input[id].items)];
  }

  // ---------------------------------------------------------------------------------------
  // A repeat of a single field: the entries collapse into one.

  /** Each object entry of a one-field repeat writes one leaf named by the field's tag. */
  lemma {:induction false} OneChildBlocks(rep: FieldSet, entries: seq<JValue>, ser: Serializer)
    requires rep.Repeat? && |rep.children| == 1
    requires forall i :: 0 <= i < |entries| ==> entries[i].JObj?
    ensures var b := Blocks(rep, entries, ser);
            |b| == |entries| &&
            forall i :: 0 <= i < |b| ==>
              b[i] == Leaf(rep.children[0].tag, OptString(entries[i].fields, rep.children[0].id, ser))
  {
    if |entries| > 0 {
      OneChildBlocks(rep, entries[1..], ser);
      assert |Leaves(rep, 0, entries[0].fields, ser)| == 1;
    }
  }

  /** Scanning elements that all carry one name, of schema index 1, from a start above it:
      no element ever starts a new group, so there is one group holding the last element. */
  lemma {:induction false} SameNameScan(index: map<string, nat>, tag: string, top: int, nodes: seq<Element>)
    requires tag in index && index[tag] == 1 && top > 1
    requires |nodes| > 0 && forall i :: 0 <= i < |nodes| ==> nodes[i].name == tag
    ensures Scan(index, ScanState([], None, top), nodes) == ScanState([], Some(map[tag := nodes[|nodes| - 1]]), 1)
  {
    var n := |nodes| - 1;
    if n == 0 {
      assert nodes[..0] == [];
    } else {
      SameNameScan(index, tag, top, nodes[..n]);
      assert map[tag := nodes[n - 1]][tag := nodes[n]] == map[tag := nodes[n]];
    }
  }

  /** The wrapper of a one-field repeat yields a single group: the last entry's element. */
  lemma OneChildGroups(rep: FieldSet, section: string, entries: seq<JValue>, ser: Serializer)
    requires PlainRepeat(rep, section) && |rep.children| == 1
    requires |entries| > 0 && forall i :: 0 <= i < |entries| ==> entries[i].JObj?
    ensures var c := rep.children[0];
            RepeatGroups(Wrapper(rep, entries, ser), rep)
              == [map[c.tag := Leaf(c.tag, OptString(entries[|entries| - 1].fields, c.id, ser))]]
  {
    var c := rep.children[0];
    assert PlainField(c, section);
    FieldIdsOfFields(rep.children);
    var fields := FieldList(rep);
    assert fields == [rep.id, c.id];
    var index := FieldIndex(fields);
    assert c.tag in index && index[c.tag] == 1;
    OneChildBlocks(rep, entries, ser);
    SameNameScan(index, c.tag, 2, Wrapper(rep, entries, ser).children);
  }

  /** A wrapper whose only group holds one element for the single field reads back as one
      object holding that element's text under the field's id. */
  lemma OneGroupReads(rep: FieldSet, section: string, w: Element, text: string, dec: UrnDecoder)
    requires PlainRepeat(rep, section) && |rep.children| == 1 && w.attrs == []
    requires RepeatGroups(w, rep) == [map[rep.children[0].tag := Leaf(rep.children[0].tag, text)]]
    ensures RepeatedNodeJson(map[], w, rep, dec) == Ok(map[rep.id := JArr([JObj(map[rep.children[0].id := JStr(text)])])])
  {
    var c := rep.children[0];
    assert PlainField(c, section);
    var g := map[c.tag := Leaf(c.tag, text)];
    var m := map[c.id := JStr(text)];
    assert ChildJson(g[c.tag], rep, 0, map[], [], dec) == Ok((m, []));
    assert c.id in m && |m| > 0;
    var none: seq<Slot> := [];
    assert none + [Member(m)] == [Member(m)];
    assert MemberJson(g, w, rep, 1, m, [], [], dec) == Ok(Collected([Member(m)], []));
    assert MemberJson(g, w, rep, 0, map[], [], [], dec) == Ok(Collected([Member(m)], [])) by {
      assert AttrMap(w.attrs) == map[];
      assert m + map[] == m;
    }
    var gs: seq<Group> := [g];
    assert gs[1..] == [];
    assert GroupsJson(gs, w, rep, [], [], dec) == Ok(Collected([Member(m)], []));
    assert Resolve([Member(m)], []) == [JObj(m)];
  }

  /** A record whose one field set is a repeat of a single plain field: whatever the number of
      entries written, reading the document into a fresh object gives back one entry, holding
      the LAST entry's value. */
  lemma OneChildCollapse(r: Record, input: JObject, section: string, ser: Serializer, dec: UrnDecoder)
    requires |r.fields| == 1 && PlainRepeat(r.fields[0], section) && |r.fields[0].children| == 1
    requires r.fields[0].section == section
    requires section in r.recordPaths && ParseRecordPath(r.recordPaths[section]).Ok?
    requires r.fields[0].id in input && input[r.fields[0].id].JArr? && |input[r.fields[0].id].items| > 0
    requires forall q :: 0 <= q < |input[r.fields[0].id].items| ==> input[r.fields[0].id].items[q].JObj?
    ensures DocumentFor(r, input, section, ser).Ok?
    ensures var rep := r.fields[0];
            var c := rep.children[0];
            var items := input[rep.id].items;
            var last := OptString(items[|items| - 1].fields, c.id, ser);
            FieldsJson(map[], r.fields, DocumentFor(r, input, section, ser).value, dec)
              == Ok(map[rep.id := JArr([JObj(map[c.id := JStr(last)])])])
  {
    var rep := r.fields[0];
    var c := rep.children[0];
    var items := input[rep.id].items;
    var text := OptString(items[|items| - 1].fields, c.id, ser);
    RepeatDocument(r, input, section, ser);
    var doc := DocumentFor(r, input, section, ser).value;
    var w := Wrapper(rep, items, ser);
    OneChildGroups(rep, section, items, ser);
    OneGroupReads(rep, section, w, text, dec);
    var o := map[rep.id := JArr([JObj(map[c.id := JStr(text)])])];
    assert [w][1..] == [];
    assert ContainersJson(o, [], rep, dec) == Ok(o);
    assert ContainersJson(map[], [w], rep, dec) == Ok(o);
    FieldsJsonSingle(map[], r.fields, doc, dec);
  }

  // ---------------------------------------------------------------------------------------
  // A record of plain fields.

  /** A top-level field that reads back what it writes: addFieldToJson selects by tag, so
      unlike inside a repeat its tag need not be its id. */
  ghost predicate TopField(f: FieldSet, section: string) {
    f.Field? && f.autocomplete.None? && f.section == section
  }

  /** Top-level field sets that are all such fields of the section, with distinct ids and
      distinct tags. */
  ghost predicate PlainRecord(fields: seq<FieldSet>, section: string) {
    && (forall k :: 0 <= k < |fields| ==> TopField(fields[k], section))
    && (forall k, l :: 0 <= k < l < |fields| ==> fields[k].id != fields[l].id)
    && (forall k, l :: 0 <= k < l < |fields| ==> fields[k].tag != fields[l].tag)
  }

  /** The ids the fields declare. */
  ghost function Declared(fields: seq<FieldSet>): set<string> {
    set k | 0 <= k < |fields| :: fields[k].id
  }

  /** What a record of plain fields should read back as: every declared id with the text the
      input holds for it, "" where it holds nothing. */
  ghost function ReadBack(fields: seq<FieldSet>, input: JObject, ser: Serializer): JObject {
    map id | id in Declared(fields) :: JStr(OptString(input, id, ser))
  }

  /** One leaf per field, in schema order. */
  function PlainLeaves(fields: seq<FieldSet>, input: JObject, ser: Serializer): (r: seq<Element>)
    ensures |r| == |fields|
    ensures forall k :: 0 <= k < |r| ==> r[k] == Leaf(fields[k].tag, OptString(input, fields[k].id, ser))
  {
    if |fields| == 0 then []
    else [Leaf(fields[0].tag, OptString(input, fields[0].id, ser))] + PlainLeaves(fields[1..], input, ser)
  }

  /** JSON -> XML of plain fields: one leaf per field holding optString of its id. */
  lemma {:induction false} PlainWrites(fields: seq<FieldSet>, input: JObject, section: string, ser: Serializer)
    requires PlainRecord(fields, section)
    ensures FieldsElements(fields, input, section, ser) == Ok(PlainLeaves(fields, input, ser))
  {
    if |fields| > 0 {
      assert TopField(fields[0], section);
      PlainWrites(fields[1..], input, section, ser);
    }
  }

  /** A selection among elements none of which has the name is empty. */
  lemma {:induction false} NamedNone(kids: seq<Element>, tag: string)
    requires forall q :: 0 <= q < |kids| ==> kids[q].name != tag
    ensures Named(kids, tag) == []
  {
    if |kids| > 0 {
      NamedNone(kids[1..], tag);
    }
  }

  /** A selection with exactly one element of the name holds just that element. */
  lemma {:induction false} NamedOnly(kids: seq<Element>, tag: string, p: nat)
    requires p < |kids| && kids[p].name == tag
    requires forall q :: 0 <= q < |kids| && q != p ==> kids[q].name != tag
    ensures Named(kids, tag) == [kids[p]]
  {
    if p == 0 {
      NamedNone(kids[1..], tag);
    } else {
      NamedOnly(kids[1..], tag, p - 1);
    }
  }

  /** Reading one plain field whose tag selects one leaf puts the leaf's text under its id. */
  lemma PlainFieldReads(out: JObject, f: FieldSet, root: Element, text: string, section: string, dec: UrnDecoder)
    requires TopField(f, section)
    requires SelectNodes(root, f.tag) == [Leaf(f.tag, text)]
    ensures FieldSetJson(out, root, f, dec) == Ok(out[f.id := JStr(text)])
  {
  }

  /** The read-back of plain fields is the first field's value added to the rest's. */
  lemma ReadBackCons(fields: seq<FieldSet>, input: JObject, section: string, ser: Serializer)
    requires |fields| > 0 && PlainRecord(fields, section)
    ensures PlainRecord(fields[1..], section)
    ensures fields[0].id !in ReadBack(fields[1..], input, ser)
    ensures ReadBack(fields, input, ser)
         == ReadBack(fields[1..], input, ser)[fields[0].id := JStr(OptString(input, fields[0].id, ser))]
  {
    var rest := fields[1..];
    assert forall k :: 0 <= k < |rest| ==> rest[k] == fields[k + 1];
    assert Declared(fields) == {fields[0].id} + Declared(rest) by {
      assert forall k :: 0 < k < |fields| ==> fields[k] == rest[k - 1];
    }
  }

  /** Putting a key before joining a map without it is putting it after. */
  lemma PutJoin(a: JObject, b: JObject, k: string, v: JValue)
    requires k !in b
    ensures a[k := v] + b == a + b[k := v]
  {
  }

  /** XML -> JSON of plain fields whose tags each select one leaf: every field's text lands
      under its id; other keys of out stay as they were. */
  lemma {:induction false} PlainReads(out: JObject, fields: seq<FieldSet>, root: Element, input: JObject,
                                      section: string, ser: Serializer, dec: UrnDecoder)
    requires PlainRecord(fields, section)
    requires forall k :: 0 <= k < |fields| ==>
      SelectNodes(root, fields[k].tag) == [Leaf(fields[k].tag, OptString(input, fields[k].id, ser))]
    ensures FieldsJson(out, fields, root, dec) == Ok(out + ReadBack(fields, input, ser))
    decreases |fields|
  {
    if |fields| == 0 {
      assert Declared(fields) == {};
      assert ReadBack(fields, input, ser) == map[];
      assert out + map[] == out;
    } else {
      var f := fields[0];
      var v := JStr(OptString(input, f.id, ser));
      assert TopField(f, section);
      PlainFieldReads(out, f, root, OptString(input, f.id, ser), section, dec);
      ReadBackCons(fields, input, section, ser);
      var rest := fields[1..];
      assert forall k :: 0 <= k < |rest| ==>
        SelectNodes(root, rest[k].tag) == [Leaf(rest[k].tag, OptString(input, rest[k].id, ser))] by {
        assert forall k :: 0 <= k < |rest| ==> rest[k] == fields[k + 1];
      }
      PlainReads(out[f.id := v], rest, root, input, section, ser, dec);
      PutJoin(out, ReadBack(rest, input, ser), f.id, v);
    }
  }

  /** A record of plain fields of one section, converted to the section's document and back,
      gives every declared id the text the input held for it, "" for an absent one; keys of out
      that the record does not declare stay as they were. */
  lemma PlainRoundTrip(r: Record, input: JObject, section: string, out: JObject, ser: Serializer, dec: UrnDecoder)
    requires PlainRecord(r.fields, section)
    requires section in r.recordPaths && ParseRecordPath(r.recordPaths[section]).Ok?
    ensures DocumentFor(r, input, section, ser).Ok?
    ensures FieldsJson(out, r.fields, DocumentFor(r, input, section, ser).value, dec)
         == Ok(out + ReadBack(r.fields, input, ser))
  {
    PlainWrites(r.fields, input, section, ser);
    var doc := DocumentFor(r, input, section, ser).value;
    var kids := PlainLeaves(r.fields, input, ser);
    assert doc.children == kids;
    forall k | 0 <= k < |r.fields|
      ensures SelectNodes(doc, r.fields[k].tag) == [kids[k]]
    {
      forall q | 0 <= q < |kids| && q != k
        ensures kids[q].name != r.fields[k].tag
      {
        if q < k {
          assert r.fields[q].tag != r.fields[k].tag;
        } else {
          assert r.fields[k].tag != r.fields[q].tag;
        }
      }
      NamedOnly(kids, r.fields[k].tag, k);
    }
    PlainReads(out, r.fields, doc, input, section, ser, dec);
  }
}
