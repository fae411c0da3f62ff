/** The record schema: Field leaves and Repeat groups, read only. */
module Schema {
  import opened Common

  /** A schema node. A Field's autocomplete is the URN syntax of its autocomplete instance's
      record, when it has one. A Repeat carries the two shape-mismatch flags and its children
      in schema order. */
  datatype FieldSet =
    | Field(id: string, tag: string, section: string, autocomplete: Option<string>)
    | Repeat(id: string, tag: string, section: string,
             servicesNoRepeat: bool, uiNoRepeat: bool, children: seq<FieldSet>)

  /** A record type: its fields in schema order, the services record path of each section
      ("documentType:namespaceURI,rootElement"), and the mini-view fields. */
  datatype Record = Record(
    fields: seq<FieldSet>,
    recordPaths: map<string, string>,
    miniNumber: Option<FieldSet>,
    miniSummary: Option<FieldSet>,
    miniSummaryList: seq<FieldSet>)

  predicate HasAutocomplete(fs: FieldSet) {
    fs.Field? && fs.autocomplete.Some?
  }

  /** The ids of the Field members of cs, in order; Repeat members are passed over. */
  function FieldIds(cs: seq<FieldSet>): (r: seq<string>)
    ensures |r| <= |cs|
    ensures forall x :: x in r <==> exists k :: 0 <= k < |cs| && cs[k].Field? && cs[k].id == x
  {
    if |cs| == 0 then []
    else
      var rest := FieldIds(cs[1..]);
      assert forall k :: 0 <= k < |cs| - 1 ==> cs[1..][k] == cs[k + 1];
      if cs[0].Field? then [cs[0].id] + rest else rest
  }

  lemma {:induction false} FieldIdsOfFields(cs: seq<FieldSet>)
    requires forall k :: 0 <= k < |cs| ==> cs[k].Field?
    ensures |FieldIds(cs)| == |cs|
    ensures forall k :: 0 <= k < |cs| ==> FieldIds(cs)[k] == cs[k].id
  {
    if |cs| > 0 {
      FieldIdsOfFields(cs[1..]);
    }
  }

  /** The ids of the Field members keep their order: those of a + b are those of a, then
      those of b. */
  lemma {:induction false} FieldIdsAppend(a: seq<FieldSet>, b: seq<FieldSet>)
    ensures FieldIds(a + b) == FieldIds(a) + FieldIds(b)
  {
    if |a| == 0 {
      assert a + b == b;
    } else {
      assert (a + b)[1..] == a[1..] + b;
      FieldIdsAppend(a[1..], b);
    }
  }

  /** buildFieldList: a Repeat's own id followed by the ids of its Field children only; a
      Field's own id. Nested Repeat children contribute nothing. */
  function FieldList(f: FieldSet): (r: seq<string>)
    ensures |r| >= 1 && r[0] == f.id
    ensures f.Field? ==> r == [f.id]
    ensures f.Repeat? ==>
      forall x :: x in r[1..] <==> exists k :: 0 <= k < |f.children| && f.children[k].Field? && f.children[k].id == x
    ensures f.Repeat? ==> r[1..] == FieldIds(f.children)
  {
    match f
    case Field(id, _, _, _) => [id]
    case Repeat(id, _, _, _, _, children) => [id] + FieldIds(children)
  }

  /** The map the source fills with field_index.put(fields[i], i): a name's LAST position. */
  function FieldIndex(fields: seq<string>): (m: map<string, nat>)
    ensures forall x :: x in m <==> x in fields
    ensures forall x :: x in m ==> m[x] < |fields| && fields[m[x]] == x
    ensures forall x, j :: x in m && m[x] < j < |fields| ==> fields[j] != x
  {
    if |fields| == 0 then map[]
    else
      var n := |fields| - 1;
      var m := FieldIndex(fields[..n]);
      assert forall j :: 0 <= j < n ==> fields[..n][j] == fields[j];
      m[fields[n] := n]
  }
}
