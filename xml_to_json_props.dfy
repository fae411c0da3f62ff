/** What XML -> JSON promises about the objects it writes. */
module XmlToJsonProps {
  import opened Common
  import opened Json
  import opened Xml
  import opened Schema
  import opened DeUrn
  import opened RepeatExtract
  import opened XmlToJson

  /** A Field reads the FIRST child carrying its tag, whatever follows. */
  lemma FieldReadsFirst(out: JObject, root: Element, f: FieldSet, p: nat, dec: UrnDecoder)
    requires f.Field? && p < |root.children| && root.children[p].name == f.tag
    requires forall q :: 0 <= q < p ==> root.children[q].name != f.tag
    requires !HasAutocomplete(f) || GetDeUrnedValue(f, root.children[p].text, dec).Ok?
    ensures FieldJson(out, root, f, dec).Ok?
    ensures FieldJson(out, root, f, dec).value[f.id] == JStr(root.children[p].text)
  {
    NamedFirst(root.children, f.tag, p);
  }

  /** The de-URNed sibling is set exactly when decoding gives a non-empty name. */
  lemma FieldDeUrned(out: JObject, root: Element, f: FieldSet, dec: UrnDecoder)
    requires f.Field? && f.autocomplete.Some? && |SelectNodes(root, f.tag)| > 0
    requires GetDeUrnedValue(f, SelectNodes(root, f.tag)[0].text, dec).Ok?
    ensures FieldJson(out, root, f, dec).Ok?
    ensures var d := GetDeUrnedValue(f, SelectNodes(root, f.tag)[0].text, dec).value;
            var res := FieldJson(out, root, f, dec).value;
            && (d != "" ==> DeUrnedKey(f.id) in res && res[DeUrnedKey(f.id)] == JStr(d))
            && (d == "" ==> (DeUrnedKey(f.id) in res <==> DeUrnedKey(f.id) in out))
            && (d == "" && DeUrnedKey(f.id) in out ==> res[DeUrnedKey(f.id)] == out[DeUrnedKey(f.id)])
  {
    assert |DeUrnedKey(f.id)| != |f.id|;
  }

  /** The container's attributes, as the group objects must hold them. */
  ghost predicate Carries(obj: JObject, attrs: seq<Attr>) {
    forall k :: k in AttrMap(attrs) ==> k in obj && obj[k] == AttrMap(attrs)[k]
  }

  /** The slots added after position n are group objects that are non-empty and, when the
      repeat has children, carry every attribute of the container. */
  ghost predicate NewMembersGood(slots: seq<Slot>, n: nat, attrs: seq<Attr>, hasChildren: bool) {
    forall i :: n <= i < |slots| && slots[i].Member? ==>
      |slots[i].obj| > 0 && (hasChildren ==> Carries(slots[i].obj, attrs))
  }

  /** One child of the walk, without uiNoRepeat: its tag is in the group, it succeeds, and
      the walk goes on with the attributes put into the object and, once the shared array is
      non-empty, one more SharedRepeats slot. */
  lemma MemberJsonStep(g: Group, c: Element, f: FieldSet, j: nat, member: JObject,
                       slots: seq<Slot>, shared: seq<JValue>, dec: UrnDecoder)
    requires f.Repeat? && !f.uiNoRepeat && j < |f.children|
    requires MemberJson(g, c, f, j, member, slots, shared, dec).Ok?
    ensures f.children[j].tag in g
    ensures ChildJson(g[f.children[j].tag], f, j, member, shared, dec).Ok?
    ensures var step := ChildJson(g[f.children[j].tag], f, j, member, shared, dec).value;
            var sh := step.1;
            MemberJson(g, c, f, j, member, slots, shared, dec) ==
              MemberJson(g, c, f, j + 1, step.0 + AttrMap(c.attrs), if |sh| > 0 then slots + [SharedRepeats] else slots, sh, dec)
  {
  }

  /** Without uiNoRepeat the walk over one group's children never returns early; it succeeds
      only if the group holds an element for every child's tag; it keeps the slots so far and
      adds only good group objects. */
  lemma {:induction false} MemberJsonShape(g: Group, c: Element, f: FieldSet, j: nat, member: JObject,
                                           slots: seq<Slot>, shared: seq<JValue>, dec: UrnDecoder)
    requires f.Repeat? && !f.uiNoRepeat && j <= |f.children|
    requires j > 0 ==> Carries(member, c.attrs)
    requires MemberJson(g, c, f, j, member, slots, shared, dec).Ok?
    ensures var v := MemberJson(g, c, f, j, member, slots, shared, dec).value;
            && v.Collected? && |v.slots| >= |slots| && v.slots[..|slots|] == slots
            && NewMembersGood(v.slots, |slots|, c.attrs, |f.children| > 0)
    decreases |f.children| - j
  {
    if j < |f.children| {
      MemberJsonStep(g, c, f, j, member, slots, shared, dec);
      var step := ChildJson(g[f.children[j].tag], f, j, member, shared, dec).value;
      var m := step.0 + AttrMap(c.attrs);
      var sh := step.1;
      var slots' := if |sh| > 0 then slots + [SharedRepeats] else slots;
      assert Carries(m, c.attrs);
      MemberJsonShape(g, c, f, j + 1, m, slots', sh, dec);
      var v := MemberJson(g, c, f, j + 1, m, slots', sh, dec).value;
      SlotsExtend(v.slots, slots, slots', c.attrs, |f.children| > 0);
    } else {
      MemberJsonLast(g, c, f, member, slots, shared, dec);
    }
  }

  /** Without uiNoRepeat the walk succeeds only if the group holds every remaining child's tag. */
  lemma {:induction false} MemberJsonTag(g: Group, c: Element, f: FieldSet, j: nat, member: JObject,
                                         slots: seq<Slot>, shared: seq<JValue>, dec: UrnDecoder, k: nat)
    requires f.Repeat? && !f.uiNoRepeat && j <= k < |f.children|
    requires MemberJson(g, c, f, j, member, slots, shared, dec).Ok?
    ensures f.children[k].tag in g
    decreases k - j
  {
    var member', slots', shared' := MemberJsonNext(g, c, f, j, member, slots, shared, dec);
    if j < k {
      MemberJsonTag(g, c, f, j + 1, member', slots', shared', dec, k);
    }
  }

  /** A walk that succeeds has the current child's tag and goes on successfully. */
  lemma MemberJsonNext(g: Group, c: Element, f: FieldSet, j: nat, member: JObject,
                       slots: seq<Slot>, shared: seq<JValue>, dec: UrnDecoder)
    returns (member': JObject, slots': seq<Slot>, shared': seq<JValue>)
    requires f.Repeat? && !f.uiNoRepeat && j < |f.children|
    requires MemberJson(g, c, f, j, member, slots, shared, dec).Ok?
    ensures f.children[j].tag in g
    ensures MemberJson(g, c, f, j + 1, member', slots', shared', dec).Ok?
  {
    MemberJsonStep(g, c, f, j, member, slots, shared, dec);
    var step := ChildJson(g[f.children[j].tag], f, j, member, shared, dec).value;
    member' := step.0 + AttrMap(c.attrs);
    shared' := step.1;
    slots' := if |shared'| > 0 then slots + [SharedRepeats] else slots;
  }

  /** Good members after an extension of the slots that adds at most a SharedRepeats. */
  lemma SlotsExtend(all: seq<Slot>, slots: seq<Slot>, slots': seq<Slot>, attrs: seq<Attr>, hasChildren: bool)
    requires slots' == slots || slots' == slots + [SharedRepeats]
    requires |all| >= |slots'| && all[..|slots'|] == slots'
    requires NewMembersGood(all, |slots'|, attrs, hasChildren)
    ensures |all| >= |slots| && all[..|slots|] == slots
    ensures NewMembersGood(all, |slots|, attrs, hasChildren)
  {
    assert all[..|slots'|][..|slots|] == all[..|slots|];
    forall i | |slots| <= i < |all| && all[i].Member?
      ensures |all[i].obj| > 0 && (hasChildren ==> Carries(all[i].obj, attrs))
    {
    }
  }

  /** After the last child the object is added when it is non-empty. */
  lemma MemberJsonLast(g: Group, c: Element, f: FieldSet, member: JObject, slots: seq<Slot>,
                       shared: seq<JValue>, dec: UrnDecoder)
    requires f.Repeat? && !f.uiNoRepeat
    requires |f.children| > 0 ==> Carries(member, c.attrs)
    ensures var v := MemberJson(g, c, f, |f.children|, member, slots, shared, dec);
            && v.Ok? && v.value.Collected? && |v.value.slots| >= |slots| && v.value.slots[..|slots|] == slots
            && NewMembersGood(v.value.slots, |slots|, c.attrs, |f.children| > 0)
  {
  }

  lemma GroupsJsonStep(gs: seq<Group>, c: Element, f: FieldSet, slots: seq<Slot>, shared: seq<JValue>, dec: UrnDecoder)
    requires f.Repeat? && !f.uiNoRepeat && |gs| > 0
    requires GroupsJson(gs, c, f, slots, shared, dec).Ok?
    requires MemberJson(gs[0], c, f, 0, map[], slots, shared, dec).Ok?
    requires MemberJson(gs[0], c, f, 0, map[], slots, shared, dec).value.Collected?
    ensures var first := MemberJson(gs[0], c, f, 0, map[], slots, shared, dec).value;
            GroupsJson(gs, c, f, slots, shared, dec) == GroupsJson(gs[1..], c, f, first.slots, first.shared, dec)
  {
  }

  /** The same for the walk over all groups. */
  lemma {:induction false} GroupsJsonShape(gs: seq<Group>, c: Element, f: FieldSet, slots: seq<Slot>,
                                           shared: seq<JValue>, dec: UrnDecoder)
    requires f.Repeat? && !f.uiNoRepeat
    requires GroupsJson(gs, c, f, slots, shared, dec).Ok?
    ensures var v := GroupsJson(gs, c, f, slots, shared, dec).value;
            && v.Collected? && |v.slots| >= |slots| && v.slots[..|slots|] == slots
            && NewMembersGood(v.slots, |slots|, c.attrs, |f.children| > 0)
  {
    if |gs| > 0 {
      assert MemberJson(gs[0], c, f, 0, map[], slots, shared, dec).Ok?;
      MemberJsonShape(gs[0], c, f, 0, map[], slots, shared, dec);
      var first := MemberJson(gs[0], c, f, 0, map[], slots, shared, dec).value;
      GroupsJsonStep(gs, c, f, slots, shared, dec);
      GroupsJsonShape(gs[1..], c, f, first.slots, first.shared, dec);
      var v := GroupsJson(gs, c, f, slots, shared, dec).value;
      assert v.slots[..|first.slots|][..|slots|] == v.slots[..|slots|];
      assert NewMembersGood(v.slots, |slots|, c.attrs, |f.children| > 0) by {
        forall i | |slots| <= i < |v.slots| && v.slots[i].Member?
          ensures |v.slots[i].obj| > 0 && (|f.children| > 0 ==> Carries(v.slots[i].obj, c.attrs))
        {
          if i < |first.slots| {
            assert v.slots[i] == first.slots[i];
          }
        }
      }
    }
  }

  /** Without uiNoRepeat the walk over all groups succeeds only if every group holds every
      child's tag. */
  lemma {:induction false} GroupsJsonTags(gs: seq<Group>, c: Element, f: FieldSet, slots: seq<Slot>,
                                          shared: seq<JValue>, dec: UrnDecoder)
    requires f.Repeat? && !f.uiNoRepeat
    requires GroupsJson(gs, c, f, slots, shared, dec).Ok?
    ensures forall q, k :: 0 <= q < |gs| && 0 <= k < |f.children| ==> f.children[k].tag in gs[q]
  {
    if |gs| > 0 {
      assert MemberJson(gs[0], c, f, 0, map[], slots, shared, dec).Ok?;
      forall k | 0 <= k < |f.children| ensures f.children[k].tag in gs[0] {
        MemberJsonTag(gs[0], c, f, 0, map[], slots, shared, dec, k);
      }
      MemberJsonShape(gs[0], c, f, 0, map[], slots, shared, dec);
      var first := MemberJson(gs[0], c, f, 0, map[], slots, shared, dec).value;
      GroupsJsonStep(gs, c, f, slots, shared, dec);
      GroupsJsonTags(gs[1..], c, f, first.slots, first.shared, dec);
      forall q, k | 0 <= q < |gs| && 0 <= k < |f.children|
        ensures f.children[k].tag in gs[q]
      {
        if q > 0 {
          assert gs[q] == gs[1..][q - 1];
        }
      }
    }
  }

  /** addRepeatedNodeToJson without uiNoRepeat, when it succeeds: the repeat's id
      now holds an array whose new items come first and whose old items, if any, follow
      unchanged; each new group object is non-empty and carries the container's attributes;
      no other key changes. */
  lemma RepeatedNodeShape(out: JObject, c: Element, f: FieldSet, dec: UrnDecoder)
    requires f.Repeat? && !f.uiNoRepeat
    requires RepeatedNodeJson(out, c, f, dec).Ok?
    ensures var res := RepeatedNodeJson(out, c, f, dec).value;
            && f.id in res && res[f.id].JArr?
            && (forall x :: x != f.id ==> (x in res <==> x in out) && (x in out ==> res[x] == out[x]))
    ensures var items := RepeatedNodeJson(out, c, f, dec).value[f.id].items;
            var olds := if f.id in out && out[f.id].JArr? then out[f.id].items else [];
            && (f.id in out ==> out[f.id].JArr?)
            && |items| >= |olds| && items[|items| - |olds|..] == olds
            && forall i :: 0 <= i < |items| - |olds| && items[i].JObj? ==>
                 |items[i].fields| > 0 && (|f.children| > 0 ==> Carries(items[i].fields, c.attrs))
  {
    var gs := RepeatGroups(c, f);
    GroupsJsonShape(gs, c, f, [], [], dec);
    var v := GroupsJson(gs, c, f, [], [], dec).value;
    var added := Resolve(v.slots, v.shared);
    var olds := if f.id in out && out[f.id].JArr? then out[f.id].items else [];
    var items := RepeatedNodeJson(out, c, f, dec).value[f.id].items;
    assert items == added + olds;
    assert items[|items| - |olds|..] == olds;
    forall i | 0 <= i < |items| - |olds| && items[i].JObj?
      ensures |items[i].fields| > 0 && (|f.children| > 0 ==> Carries(items[i].fields, c.attrs))
    {
      assert items[i] == added[i];
      assert v.slots[i].Member?;
    }
  }

  /** addRepeatedNodeToJson without uiNoRepeat succeeds only if every extracted group held an
      element for every child's tag (a missing one is the null dereference). */
  lemma RepeatedNodeTags(out: JObject, c: Element, f: FieldSet, dec: UrnDecoder)
    requires f.Repeat? && !f.uiNoRepeat
    requires RepeatedNodeJson(out, c, f, dec).Ok?
    ensures var gs := RepeatGroups(c, f);
            forall q, k :: 0 <= q < |gs| && 0 <= k < |f.children| ==> f.children[k].tag in gs[q]
  {
    GroupsJsonTags(RepeatGroups(c, f), c, f, [], [], dec);
  }

  /** With uiNoRepeat and a Field first child, the first group's element for that child is
      stored under the child's id; the repeat's own id is not set. */
  lemma UiNoRepeatFirstChild(out: JObject, c: Element, f: FieldSet, dec: UrnDecoder)
    requires f.Repeat? && f.uiNoRepeat && |f.children| > 0 && f.children[0].Field?
    requires |RepeatGroups(c, f)| > 0 && f.children[0].tag in RepeatGroups(c, f)[0]
    requires var text := RepeatGroups(c, f)[0][f.children[0].tag].text;
             !HasAutocomplete(f.children[0]) || GetDeUrnedValue(f.children[0], text, dec).Ok?
    ensures RepeatedNodeJson(out, c, f, dec)
         == Ok(out[f.children[0].id := JStr(RepeatGroups(c, f)[0][f.children[0].tag].text)])
  {
    var gs := RepeatGroups(c, f);
    var fs := f.children[0];
    var step := ChildJson(gs[0][fs.tag], f, 0, map[], [], dec);
    assert step.Ok?;
    assert MemberJson(gs[0], c, f, 0, map[], [], [], dec)
        == Ok(Early(fs.id, JStr(gs[0][fs.tag].text)));
  }

  /** With uiNoRepeat and a Repeat first child, the group object has nothing under the
      repeat's id, so member.get before the early return throws and out is left alone. */
  lemma UiNoRepeatNestedChild(out: JObject, c: Element, f: FieldSet, dec: UrnDecoder)
    requires f.Repeat? && f.uiNoRepeat && |f.children| > 0 && f.children[0].Repeat?
    requires |RepeatGroups(c, f)| > 0 && f.children[0].tag in RepeatGroups(c, f)[0]
    requires RepeatedNodeJson(map[], RepeatGroups(c, f)[0][f.children[0].tag], f.children[0], dec).Ok?
    ensures RepeatedNodeJson(out, c, f, dec) == Err(KeyNotFound(f.id))
  {
    var gs := RepeatGroups(c, f);
    var fs := f.children[0];
    assert MemberJson(gs[0], c, f, 0, map[], [], [], dec) == Err(KeyNotFound(f.id));
  }
}
