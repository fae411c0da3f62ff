/** XML -> JSON: convertToJson and the add*ToJson family, which write into a caller-owned
    JSON object, so that what they produce depends on what it already holds. */
module XmlToJson {
  import opened Common
  import opened Json
  import opened Xml
  import opened Schema
  import opened DeUrn
  import opened RepeatExtract

  /** An entry of the array addRepeatedNodeToJson builds: a group's object, or the one shared
      array of nested-repeat results. The source appends that same array object again and
      again while it keeps growing, so every such entry shows its FINAL contents; the model
      records the position and fills in the final contents at the end (Resolve). */
  datatype Slot = Member(obj: JObject) | SharedRepeats

  /** How the walk over the groups ends: the uiNoRepeat early return, which puts one key into
      `out`, or the finished slots and shared array. */
  datatype NodeOutcome =
    | Early(key: string, value: JValue)
    | Collected(slots: seq<Slot>, shared: seq<JValue>)

  function DeUrnedKey(id: string): string {
    "de-urned-" + id
  }

  /** The slots with the final shared array in place of each SharedRepeats. */
  function Resolve(slots: seq<Slot>, shared: seq<JValue>): (r: seq<JValue>)
    ensures |r| == |slots|
    ensures forall i :: 0 <= i < |slots| ==>
      r[i] == (if slots[i].Member? then JObj(slots[i].obj) else JArr(shared))
  {
    if |slots| == 0 then []
    else [if slots[0].Member? then JObj(slots[0].obj) else JArr(shared)] + Resolve(slots[1..], shared)
  }

  /** The attributes as the loop over container.selectNodes("@*") leaves them: a later
      attribute of the same name replacing an earlier one. */
  function AttrMap(attrs: seq<Attr>): JObject {
    if |attrs| == 0 then map[]
    else
      var n := |attrs| - 1;
      AttrMap(attrs[..n])[attrs[n].name := JStr(attrs[n].value)]
  }

  /** The map holds exactly the attribute names ... */
  lemma {:induction false} AttrMapKeys(attrs: seq<Attr>)
    ensures forall k :: k in AttrMap(attrs) <==> exists i :: 0 <= i < |attrs| && attrs[i].name == k
  {
    if |attrs| > 0 {
      var n := |attrs| - 1;
      AttrMapKeys(attrs[..n]);
      assert forall i :: 0 <= i < n ==> attrs[..n][i] == attrs[i];
    }
  }

  /** ... each with the value of the LAST attribute of that name. */
  lemma {:induction false} AttrMapLast(attrs: seq<Attr>, i: nat)
    requires i < |attrs|
    requires forall j :: i < j < |attrs| ==> attrs[j].name != attrs[i].name
    ensures attrs[i].name in AttrMap(attrs) && AttrMap(attrs)[attrs[i].name] == JStr(attrs[i].value)
  {
    var n := |attrs| - 1;
    if i < n {
      AttrMapLast(attrs[..n], i);
    }
  }

  /** The de-URN step of addFieldToJson and addRepeatedNodeToJson: for a field with an
      autocomplete instance, "de-urned-<id>" is set to the decoded display name when that is
      non-empty; nothing else changes. */
  function WithDeUrned(obj: JObject, fs: FieldSet, text: string, dec: UrnDecoder): (r: Result<JObject>)
    requires fs.Field?
    ensures r.Err? <==> HasAutocomplete(fs) && GetDeUrnedValue(fs, text, dec).Err?
    ensures r.Err? ==> r.failure == UrnTooShort(text)
    ensures r.Ok? && HasAutocomplete(fs) && GetDeUrnedValue(fs, text, dec).value != "" ==>
      r.value == obj[DeUrnedKey(fs.id) := JStr(GetDeUrnedValue(fs, text, dec).value)]
    ensures r.Ok? && (!HasAutocomplete(fs) || GetDeUrnedValue(fs, text, dec) == Ok("")) ==> r.value == obj
  {
    if HasAutocomplete(fs) then
      match GetDeUrnedValue(fs, text, dec)
      case Err(e) => Err(e)
      case Ok(d) => Ok(if d != "" then obj[DeUrnedKey(fs.id) := JStr(d)] else obj)
    else Ok(obj)
  }

  /** addFieldToJson: the text of the FIRST child named by the field's tag under its id (plus
      the de-URNed sibling); no child, no change. */
  function FieldJson(out: JObject, root: Element, f: FieldSet, dec: UrnDecoder): (r: Result<JObject>)
    requires f.Field?
    ensures |SelectNodes(root, f.tag)| == 0 ==> r == Ok(out)
    ensures r.Err? ==> |SelectNodes(root, f.tag)| > 0 && r.failure == UrnTooShort(SelectNodes(root, f.tag)[0].text)
    ensures r.Ok? && |SelectNodes(root, f.tag)| > 0 ==>
      f.id in r.value && r.value[f.id] == JStr(SelectNodes(root, f.tag)[0].text)
    ensures r.Ok? ==> forall k :: k != f.id && k != DeUrnedKey(f.id) ==>
      (k in r.value <==> k in out) && (k in out ==> r.value[k] == out[k])
  {
    var nodes := SelectNodes(root, f.tag);
    if |nodes| == 0 then Ok(out)
    else
      match WithDeUrned(out, f, nodes[0].text, dec)
      case Err(e) => Err(e)
      case Ok(o) => Ok(o[f.id := JStr(nodes[0].text)])
  }

  /** addFieldSetToJson. There is no section filter on this side. */
  function FieldSetJson(out: JObject, root: Element, fs: FieldSet, dec: UrnDecoder): Result<JObject>
    decreases fs, 6, 0
  {
    if fs.Field? then FieldJson(out, root, fs, dec) else RepeatJson(out, root, fs, dec)
  }

  /** addRepeatToJson. With servicesNoRepeat the repeat's value is overwritten by a one-element
      array holding what the first child reads from root itself; otherwise every wrapper
      element named by the tag is converted in turn into the same object. */
  function RepeatJson(out: JObject, root: Element, f: FieldSet, dec: UrnDecoder): (r: Result<JObject>)
    requires f.Repeat?
    decreases f, 5, 0
    ensures f.servicesNoRepeat && |f.children| == 0 ==> r == Ok(out)
    ensures f.servicesNoRepeat && |f.children| > 0 ==>
      var data := FieldSetJson(map[], root, f.children[0], dec);
      (r.Ok? <==> data.Ok?) && (r.Ok? ==> r.value == out[f.id := JArr([JObj(data.value)])])
    ensures !f.servicesNoRepeat && |SelectNodes(root, f.tag)| == 0 ==> r == Ok(out)
  {
    if f.servicesNoRepeat then
      if |f.children| == 0 then Ok(out)
      else
        match FieldSetJson(map[], root, f.children[0], dec)
        case Err(e) => Err(e)
        case Ok(data) => Ok(out[f.id := JArr([JObj(data)])])
    else ContainersJson(out, SelectNodes(root, f.tag), f, dec)
  }

  /** The loop of addRepeatToJson over the wrapper elements. */
  function ContainersJson(out: JObject, containers: seq<Element>, f: FieldSet, dec: UrnDecoder): Result<JObject>
    requires f.Repeat?
    decreases f, 4, |containers|
  {
    if |containers| == 0 then Ok(out)
    else
      match RepeatedNodeJson(out, containers[0], f, dec)
      case Err(e) => Err(e)
      case Ok(o) => ContainersJson(o, containers[1..], f, dec)
  }

  /** Storing the new array under id: after the items already there, if any; a value there
      that is not an array is a JSONException. */
  function Merge(out: JObject, id: string, items: seq<JValue>): (r: Result<JObject>)
    ensures id !in out ==> r == Ok(out[id := JArr(items)])
    ensures id in out && out[id].JArr? ==> r == Ok(out[id := JArr(items + out[id].items)])
    ensures id in out && !out[id].JArr? ==> r == Err(NotAnArray(id))
  {
    if id in out then
      if out[id].JArr? then Ok(out[id := JArr(items + out[id].items)]) else Err(NotAnArray(id))
    else Ok(out[id := JArr(items)])
  }

  /** addRepeatedNodeToJson for one wrapper element. */
  function RepeatedNodeJson(out: JObject, container: Element, f: FieldSet, dec: UrnDecoder): Result<JObject>
    requires f.Repeat?
    decreases f, 3, 0
  {
    match GroupsJson(RepeatGroups(container, f), container, f, [], [], dec)
    case Err(e) => Err(e)
    case Ok(Early(key, v)) => Ok(out[key := v])
    case Ok(Collected(slots, shared)) => Merge(out, f.id, Resolve(slots, shared))
  }

  /** The loop over the extracted groups. */
  function GroupsJson(groups: seq<Group>, container: Element, f: FieldSet,
                      slots: seq<Slot>, shared: seq<JValue>, dec: UrnDecoder): Result<NodeOutcome>
    requires f.Repeat?
    decreases f, 2, |groups|
  {
    if |groups| == 0 then Ok(Collected(slots, shared))
    else
      match MemberJson(groups[0], container, f, 0, map[], slots, shared, dec)
      case Err(e) => Err(e)
      case Ok(Early(key, v)) => Ok(Early(key, v))
      case Ok(Collected(s, sh)) => GroupsJson(groups[1..], container, f, s, sh, dec)
  }

  /** The loop over the repeat's children for one group, from child j on: member is the
      group's object so far. Each child is followed by the uiNoRepeat early return (whose
      member.get of the repeat's id throws when the object lacks it) or by the
      container's attributes and, once the shared array is non-empty, another SharedRepeats
      slot; the group's object is added at the end when it is non-empty. */
  function MemberJson(group: Group, container: Element, f: FieldSet, j: nat, member: JObject,
                      slots: seq<Slot>, shared: seq<JValue>, dec: UrnDecoder): Result<NodeOutcome>
    requires f.Repeat? && j <= |f.children|
    decreases f, 1, |f.children| - j
  {
    if j == |f.children| then
      Ok(Collected(if |member| > 0 then slots + [Member(member)] else slots, shared))
    else
      var fs := f.children[j];
      if fs.tag !in group then Err(MissingChildList(fs.tag))
      else
        match ChildJson(group[fs.tag], f, j, member, shared, dec)
        case Err(e) => Err(e)
        case Ok((m, sh)) =>
          if f.uiNoRepeat then
            if f.id in m then Ok(Early(fs.id, m[f.id])) else Err(KeyNotFound(f.id))
          else
            MemberJson(group, container, f, j + 1, m + AttrMap(container.attrs),
                       if |sh| > 0 then slots + [SharedRepeats] else slots, sh, dec)
  }

  /** One child element of a group: a Field child's text goes into the group's object (under
      the repeat's id when uiNoRepeat is set, under the child's id otherwise); a Repeat child
      is converted into a fresh object that joins the shared array. */
  function ChildJson(child: Element, f: FieldSet, j: nat, member: JObject, shared: seq<JValue>,
                     dec: UrnDecoder): (r: Result<(JObject, seq<JValue>)>)
    requires f.Repeat? && j < |f.children|
    decreases f, 0, 0
    ensures r.Ok? && f.children[j].Field? ==>
      var key := if f.uiNoRepeat then f.id else f.children[j].id;
      r.value.1 == shared && key in r.value.0 && r.value.0[key] == JStr(child.text)
    ensures r.Ok? && f.children[j].Repeat? ==> r.value.0 == member && |r.value.1| == |shared| + 1
  {
    var fs := f.children[j];
    if fs.Field? then
      match WithDeUrned(member, fs, child.text, dec)
      case Err(e) => Err(e)
      case Ok(m) => Ok((m[if f.uiNoRepeat then f.id else fs.id := JStr(child.text)], shared))
    else
      match RepeatedNodeJson(map[], child, fs, dec)
      case Err(e) => Err(e)
      case Ok(rp) => Ok((member, shared + [JObj(rp)]))
  }

  /** convertToJson(out, r, doc): every fieldset of the record in turn, into out. */
  function FieldsJson(out: JObject, fields: seq<FieldSet>, root: Element, dec: UrnDecoder): Result<JObject>
    decreases |fields|
  {
    if |fields| == 0 then Ok(out)
    else
      match FieldSetJson(out, root, fields[0], dec)
      case Err(e) => Err(e)
      case Ok(o) => FieldsJson(o, fields[1..], root, dec)
  }

  // ---------------------------------------------------------------------------------------
  // The methods, filling the caller's JSONObject in place. Each is proved to leave exactly
  // the object its function above describes, and to fail exactly when that function does.
  // After a failure the source leaves `out` partly written; the model does not say how.

  method AddFieldToJson(out: JsonObject, root: Element, f: FieldSet, dec: UrnDecoder) returns (o: Outcome)
    requires f.Field?
    modifies out
    ensures o == OutcomeOf(FieldJson(old(out.entries), root, f, dec))
    ensures o.Pass? ==> out.entries == FieldJson(old(out.entries), root, f, dec).value
    ensures o.Fail? ==> out.entries == old(out.entries)
  {
    var nodes := SelectNodes(root, f.tag);
    if |nodes| == 0 {
      return Pass;
    }
    // just the first
    var el := nodes[0];
    if HasAutocomplete(f) {
      var deurned := GetDeUrnedValue(f, el.text, dec);
      if deurned.Err? {
        return Fail(deurned.failure);
      }
      if deurned.value != "" {
        out.Put(DeUrnedKey(f.id), JStr(deurned.value));
      }
    }
    out.Put(f.id, JStr(el.text));
    return Pass;
  }

  method AddFieldSetToJson(out: JsonObject, root: Element, fs: FieldSet, dec: UrnDecoder) returns (o: Outcome)
    modifies out
    decreases fs, 6
    ensures o == OutcomeOf(FieldSetJson(old(out.entries), root, fs, dec))
    ensures o.Pass? ==> out.entries == FieldSetJson(old(out.entries), root, fs, dec).value
  {
    if fs.Field? {
      o := AddFieldToJson(out, root, fs, dec);
    } else {
      o := AddRepeatToJson(out, root, fs, dec);
    }
  }

  method AddRepeatToJson(out: JsonObject, root: Element, f: FieldSet, dec: UrnDecoder) returns (o: Outcome)
    requires f.Repeat?
    modifies out
    decreases f, 5
    ensures o == OutcomeOf(RepeatJson(old(out.entries), root, f, dec))
    ensures o.Pass? ==> out.entries == RepeatJson(old(out.entries), root, f, dec).value
  {
    if f.servicesNoRepeat {
      if |f.children| == 0 {
        return Pass;
      }
      var data := new JsonObject();
      o := AddFieldSetToJson(data, root, f.children[0], dec);
      if o.Fail? {
        return;
      }
      out.Put(f.id, JArr([JObj(data.entries)]));
      return;
    }
    var nodes := SelectNodes(root, f.tag);
    var i := 0;
    while i < |nodes|
      invariant 0 <= i <= |nodes|
      invariant ContainersJson(old(out.entries), nodes, f, dec) == ContainersJson(out.entries, nodes[i..], f, dec)
    {
      assert nodes[i..][1..] == nodes[i + 1..];
      o := AddRepeatedNodeToJson(out, nodes[i], f, dec);
      if o.Fail? {
        return;
      }
      i := i + 1;
    }
    return Pass;
  }

  method AddRepeatedNodeToJson(out: JsonObject, container: Element, f: FieldSet, dec: UrnDecoder) returns (o: Outcome)
    requires f.Repeat?
    modifies out
    decreases f, 3
    ensures o == OutcomeOf(RepeatedNodeJson(old(out.entries), container, f, dec))
    ensures o.Pass? ==> out.entries == RepeatedNodeJson(old(out.entries), container, f, dec).value
  {
    var elementlist := ExtractRepeats(container, f);
    var entries: seq<Slot> := [];
    var repeatarray: seq<JValue> := [];
    var i := 0;
    while i < |elementlist|
      invariant 0 <= i <= |elementlist|
      invariant out.entries == old(out.entries)
      invariant GroupsJson(elementlist, container, f, [], [], dec)
             == GroupsJson(elementlist[i..], container, f, entries, repeatarray, dec)
    {
      assert elementlist[i..][1..] == elementlist[i + 1..];
      var r := GroupToJson(elementlist[i], container, f, entries, repeatarray, dec);
      match r
      case Err(e) =>
        return Fail(e);
      case Ok(Early(key, v)) =>
        out.Put(key, v);
        return Pass;
      case Ok(Collected(s, sh)) =>
        entries, repeatarray := s, sh;
      i := i + 1;
    }
    var items := Resolve(entries, repeatarray);
    if f.id in out.entries {
      // smoosh together multiple array items
      var existing := out.entries[f.id];
      if !existing.JArr? {
        return Fail(NotAnArray(f.id));
      }
      var data := existing.items;
      var k := 0;
      while k < |data|
        invariant 0 <= k <= |data|
        invariant items == Resolve(entries, repeatarray) + data[..k]
      {
        assert data[..k + 1] == data[..k] + [data[k]];
        items := items + [data[k]];
        k := k + 1;
      }
      assert data[..|data|] == data;
    }
    out.Put(f.id, JArr(items));
    return Pass;
  }

  /** The body of the loop over the groups: the repeat's children for one group, starting from
      the array and shared array built so far. */
  method GroupToJson(group: Group, container: Element, f: FieldSet, slots: seq<Slot>, shared: seq<JValue>,
                     dec: UrnDecoder) returns (r: Result<NodeOutcome>)
    requires f.Repeat?
    decreases f, 1
    ensures r == MemberJson(group, container, f, 0, map[], slots, shared, dec)
  {
    var member: JObject := map[];
    var entries := slots;
    var repeatarray := shared;
    var j := 0;
    while j < |f.children|
      invariant 0 <= j <= |f.children|
      invariant MemberJson(group, container, f, 0, map[], slots, shared, dec)
             == MemberJson(group, container, f, j, member, entries, repeatarray, dec)
    {
      var fs := f.children[j];
      if fs.tag !in group {
        return Err(MissingChildList(fs.tag));
      }
      var child := group[fs.tag];
      if fs.Field? {
        if HasAutocomplete(fs) {
          var deurned := GetDeUrnedValue(fs, child.text, dec);
          if deurned.Err? {
            return Err(deurned.failure);
          }
          if deurned.value != "" {
            member := member[DeUrnedKey(fs.id) := JStr(deurned.value)];
          }
        }
        if f.uiNoRepeat {
          member := member[f.id := JStr(child.text)];
        } else {
          member := member[fs.id := JStr(child.text)];
        }
      } else {
        var rp := new JsonObject();
        var o := AddRepeatedNodeToJson(rp, child, fs, dec);
        if o.Fail? {
          return Err(o.failure);
        }
        repeatarray := repeatarray + [JObj(rp.entries)];
      }
      if f.uiNoRepeat {
        if f.id !in member {
          return Err(KeyNotFound(f.id));
        }
        return Ok(Early(fs.id, member[f.id]));
      }
      // the container's attributes go into the group's object
      member := PutAttributes(member, container.attrs);
      if |repeatarray| > 0 {
        entries := entries + [SharedRepeats];
      }
      j := j + 1;
    }
    if |member| > 0 {
      entries := entries + [Member(member)];
    }
    return Ok(Collected(entries, repeatarray));
  }

  /** The loop over container.selectNodes("@*"), each attribute put into member in turn. */
  method PutAttributes(member: JObject, attrs: seq<Attr>) returns (m: JObject)
    ensures m == member + AttrMap(attrs)
  {
    m := member;
    var k := 0;
    while k < |attrs|
      invariant 0 <= k <= |attrs|
      invariant m == member + AttrMap(attrs[..k])
    {
      assert attrs[..k + 1][..k] == attrs[..k];
      m := m[attrs[k].name := JStr(attrs[k].value)];
      k := k + 1;
    }
    assert attrs[..|attrs|] == attrs;
  }

  /** convertToJson(out, r, doc), with the document's root element given. */
  method ConvertToJson(out: JsonObject, r: Record, root: Element, dec: UrnDecoder) returns (o: Outcome)
    modifies out
    ensures o == OutcomeOf(FieldsJson(old(out.entries), r.fields, root, dec))
    ensures o.Pass? ==> out.entries == FieldsJson(old(out.entries), r.fields, root, dec).value
  {
    var i := 0;
    while i < |r.fields|
      invariant 0 <= i <= |r.fields|
      invariant FieldsJson(old(out.entries), r.fields, root, dec) == FieldsJson(out.entries, r.fields[i..], root, dec)
    {
      assert r.fields[i..][1..] == r.fields[i + 1..];
      o := AddFieldSetToJson(out, root, r.fields[i], dec);
      if o.Fail? {
        return;
      }
      i := i + 1;
    }
    return Pass;
  }

  /** convertToJson(r, doc): the same into a fresh object, which is returned. */
  method ConvertToNewJson(r: Record, root: Element, dec: UrnDecoder) returns (res: Result<JObject>)
    ensures res == FieldsJson(map[], r.fields, root, dec)
  {
    var out := new JsonObject();
    var o := ConvertToJson(out, r, root, dec);
    if o.Fail? {
      return Err(o.failure);
    }
    return Ok(out.entries);
  }
}
