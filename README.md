# Record conversion and mini-view model

This project models, in Dafny, the core of the CollectionSpace application layer's services
persistence:

- the schema-driven mapping between a record's JSON form and the XML documents of the
  services layer (`XmlJsonConversion`): JSON to XML (`convertToXml` and the
  `add*ToXml` family), the recovery of repeat instances from a flat element list
  (`extractRepeats` with `buildFieldList`), XML to JSON into a caller-owned object
  (`convertToJson` and the `add*ToJson` family) and the display name of a URN
  (`getDeURNedValue`);
- the string and map logic of `AuthorizationStorage`: the display name of a quoted URN
  (`xxx_deurn`), the query postfix of a listing request, the three mini-view tables the
  constructor fills, and the routing of cached and retrieved values in `miniViewRetrieveJSON`.

Schema nodes are `Field` leaves and `Repeat` groups (`Schema.FieldSet`); documents are
`Xml.Element` trees and JSON values are `Json.JValue`. The converters' methods append to an
`Xml.ElementBuilder` or fill a `Json.JsonObject` in place, as the source does, and each is
proved equal to a recursive function; the properties are lemmas about those functions.
`extractRepeats` is proved equal to a second, independent description: the known elements
cut into maximal runs of non-decreasing schema index. The headline result,
`RoundTrip.RepeatRoundTrip`, is that a repeat of two or more plain fields (id equal to tag,
distinct ids, no flags), filled with object entries that hold every field as a string,
comes back from JSON to XML to a fresh JSON object as the same entries in the same order.
`RoundTrip.PlainRoundTrip` is the same for a record of plain fields with distinct ids and
distinct tags: each
declared id comes back holding the input's text for it, "" where the input has none.
`AuthorizationStorage` is a class holding the three tables; its constructor and the mini
view are proved against functions whose properties are lemmas in `AuthorizationProps`.

Exceptions of the source are `Common.Failure` values inside `Result` or `Outcome`.

Behaviour of the code that the model keeps, although a reader may not expect it:

- JSON to XML of a repeat with servicesNoRepeat and without uiNoRepeat processes the whole
  array, appending every entry's elements straight to the container
  (XmlJsonConversion.java:39-79).
- The services record path needs at least two comma-separated fields after the first ':'
  (String.split drops trailing empty fields); more are ignored (XmlJsonConversion.java:93-95).
- XML to JSON has no section filter (XmlJsonConversion.java:279-292), unlike the write side.
- A field absent from the JSON is written as an empty element and reads back as ""
  (`RoundTrip.PlainRoundTrip`).
- `deurned != ""` is a reference comparison in Java; the model reads it as string
  inequality, which is what it evidently means for the decoder's results.
- With uiNoRepeat and a Repeat first child, the group's object holds nothing under the
  repeat's id, so `member.get` throws before anything is put into the object
  (XmlJsonConversion.java:226-227); the model fails with `KeyNotFound`.
- A pageSize or pageNum value holding '&' is put into the postfix without encoding, so the
  parameters can be read back only when none holds '&' (`Authorization.PostfixParams`).
- Grouping in `extractRepeats` indexes the field list by id but looks elements up by
  name, so only elements whose name equals a schema id are recognised.
- A repeat of a single field loses entries: every element it writes has schema index 1,
  so `next<prev` never starts a second group (XmlJsonConversion.java:175) and each element
  replaces the previous one under the same name (XmlJsonConversion.java:185). However many
  entries were written, one comes back, holding the last entry's value
  (`RoundTrip.OneChildCollapse`); the round trip above therefore needs two or more fields.

## Model

| member | source | states |
|---|---|---|
| JsonToXml.FieldSetElements | cspi-services/src/main/java/org/collectionspace/chain/csp/persistence/services/XmlJsonConversion.java:82-89 | a field set of another section adds nothing; a Field of the section adds exactly one element named by its services tag holding optString of its id ("" when absent) |
| JsonToXml.AddFieldToXml | cspi-services/src/main/java/org/collectionspace/chain/csp/persistence/services/XmlJsonConversion.java:32-36 | appends exactly one element, named by the services tag, holding the JSON value as text, to the element being built; nothing else changes |
| JsonToXml.AddFieldSetToXml | cspi-services/src/main/java/org/collectionspace/chain/csp/persistence/services/XmlJsonConversion.java:82-89 | fails exactly when the field set's elements fail and otherwise appends exactly those elements to the element being built |
| JsonToXml.RepeatEntries | cspi-services/src/main/java/org/collectionspace/chain/csp/persistence/services/XmlJsonConversion.java:51-61 | absent value or blank string: no entries; non-blank string: a one-element array; array: its items; any other value raises the bad-repeat error |
| JsonToXml.RepeatElements | cspi-services/src/main/java/org/collectionspace/chain/csp/persistence/services/XmlJsonConversion.java:38-61 | without servicesNoRepeat the result is one wrapper named by the tag, also (empty) when the value is absent or blank; a value neither string nor array is an error |
| JsonToXml.RepeatContent | cspi-services/src/main/java/org/collectionspace/chain/csp/persistence/services/XmlJsonConversion.java:44-62 | without uiNoRepeat an error of the value propagates and no entries give no content |
| JsonToXml.StringEntry | cspi-services/src/main/java/org/collectionspace/chain/csp/persistence/services/XmlJsonConversion.java:67-74 | a non-blank string entry emits only the first child, holding that string |
| JsonToXml.SkippedEntry | cspi-services/src/main/java/org/collectionspace/chain/csp/persistence/services/XmlJsonConversion.java:63-78 | blank strings, nulls and other non-object entries emit nothing |
| JsonToXml.UiNoRepeatWrites | cspi-services/src/main/java/org/collectionspace/chain/csp/persistence/services/XmlJsonConversion.java:40-49 | with uiNoRepeat only the first child is written, once, from the unmodified input, whatever the repeat's own value |
| JsonToXml.AddRepeatToXml | cspi-services/src/main/java/org/collectionspace/chain/csp/persistence/services/XmlJsonConversion.java:38-80 | fails exactly when RepeatElements does and otherwise appends exactly its elements; the model appends the wrapper after filling it, where the source appends it first (:41) and fills it in place, which differs only in the half-built document of a failure, which convertToXml's caller never receives |
| JsonToXml.AddEntriesToXml | cspi-services/src/main/java/org/collectionspace/chain/csp/persistence/services/XmlJsonConversion.java:63-79 | the array loop appends, entry after entry, exactly the elements of each entry and stops at the first failure |
| JsonToXml.AddChildrenToXml | cspi-services/src/main/java/org/collectionspace/chain/csp/persistence/services/XmlJsonConversion.java:75-78 | an object entry appends every child of the repeat in schema order |
| JsonToXml.ParseRecordPath | cspi-services/src/main/java/org/collectionspace/chain/csp/persistence/services/XmlJsonConversion.java:93-95 | fails, with the descriptor error, exactly when the path has no ':' or the text after the first ':' splits on ',' into fewer than two fields; the parts it returns contain no ',' |
| JsonToXml.RootNaming | cspi-services/src/main/java/org/collectionspace/chain/csp/persistence/services/XmlJsonConversion.java:93-95 | for a path "<doc>:<namespace>,<root>" (no ':' in doc, no ',' in namespace or root, root non-empty) the namespace is field 0 and the root name field 1 |
| JsonToXml.DocumentRoot | cspi-services/src/main/java/org/collectionspace/chain/csp/persistence/services/XmlJsonConversion.java:91-99 | for such a path the document exists exactly when the field sets' elements do, and its root is named root, namespaced ns, without attributes, holding those elements |
| JsonToXml.ConvertToXml | cspi-services/src/main/java/org/collectionspace/chain/csp/persistence/services/XmlJsonConversion.java:91-102 | the root built by appending every top-level field set equals DocumentFor: missing section path and malformed descriptor are errors, otherwise the root is named and namespaced from the path (field 1 and field 0, by DocumentRoot and RootNaming) |
| DeUrn.GetDeUrnedValue | cspi-services/src/main/java/org/collectionspace/chain/csp/persistence/services/XmlJsonConversion.java:121-138 | fails exactly when a non-empty URN of an autocomplete field decodes into fewer than six parts; a decoding of six or more parts gives exactly its part 5, and a non-empty result is always that part; empty input, no autocomplete or a decoder exception give "" |
| Schema.FieldList | cspi-services/src/main/java/org/collectionspace/chain/csp/persistence/services/XmlJsonConversion.java:140-153 | the index list starts with the node's id; a Field gives just its id; for a Repeat the rest is exactly the ids of its Field children, in the children's order (with FieldIdsAppend) |
| Schema.FieldIdsAppend | cspi-services/src/main/java/org/collectionspace/chain/csp/persistence/services/XmlJsonConversion.java:142-148 | the ids of the Field children of a + b are those of a followed by those of b, so the list keeps schema order and skips Repeats |
| Schema.FieldIndex | cspi-services/src/main/java/org/collectionspace/chain/csp/persistence/services/XmlJsonConversion.java:162-165 | the index holds exactly the names of the list, each at its last position |
| RepeatExtract.BuildIndex | cspi-services/src/main/java/org/collectionspace/chain/csp/persistence/services/XmlJsonConversion.java:159-165 | the index loop builds FieldIndex of the field list |
| RepeatExtract.ExtractRepeats | cspi-services/src/main/java/org/collectionspace/chain/csp/persistence/services/XmlJsonConversion.java:156-191 | the loop over the container's children returns RepeatGroups, the fold of the scan step over the children |
| RepeatExtract.GroupsAreRuns | cspi-services/src/main/java/org/collectionspace/chain/csp/persistence/services/XmlJsonConversion.java:166-190 | the groups are the groups of the maximal non-decreasing runs of the known (schema-indexed) children: unknown names skipped, document order kept, a new group exactly where the index drops |
| RepeatExtract.RunsPartition | cspi-services/src/main/java/org/collectionspace/chain/csp/persistence/services/XmlJsonConversion.java:175-181 | the runs flatten back to the known children, each is non-empty and non-decreasing, and each starts strictly below the end of the one before |
| RepeatExtract.RunPartitionUnique | cspi-services/src/main/java/org/collectionspace/chain/csp/persistence/services/XmlJsonConversion.java:175-181 | any partition with those three properties is the runs: the grouping is determined by the drops alone |
| RepeatExtract.GroupsNonEmpty | cspi-services/src/main/java/org/collectionspace/chain/csp/persistence/services/XmlJsonConversion.java:175-188 | every emitted group holds at least one element |
| RepeatExtract.GroupOfKeys | cspi-services/src/main/java/org/collectionspace/chain/csp/persistence/services/XmlJsonConversion.java:182-185 | a group holds exactly the names of its run |
| RepeatExtract.GroupOfLast | cspi-services/src/main/java/org/collectionspace/chain/csp/persistence/services/XmlJsonConversion.java:182-185 | a name repeated within one group keeps only its last element |
| RepeatExtract.ScanSimulates | cspi-services/src/main/java/org/collectionspace/chain/csp/persistence/services/XmlJsonConversion.java:169-186 | the scan state after any prefix of the children stands for the runs of the known children of that prefix |
| RepeatExtract.StepSimulates | cspi-services/src/main/java/org/collectionspace/chain/csp/persistence/services/XmlJsonConversion.java:172-185 | one known child: closing the group on a strict drop matches starting a new run, otherwise extending the last run |
| XmlToJson.FieldJson | cspi-services/src/main/java/org/collectionspace/chain/csp/persistence/services/XmlJsonConversion.java:105-119 | no child with the tag leaves the object unchanged; otherwise the id holds the first such child's text, only the id and its de-urned key change, and a failure is the short-URN error of that text |
| XmlToJson.WithDeUrned | cspi-services/src/main/java/org/collectionspace/chain/csp/persistence/services/XmlJsonConversion.java:111-117 | de-urned-<id> is set exactly when the field has an autocomplete instance and the de-URNed value is non-empty; a decoding failure propagates |
| XmlToJsonProps.FieldReadsFirst | cspi-services/src/main/java/org/collectionspace/chain/csp/persistence/services/XmlJsonConversion.java:106-118 | the value stored is the first child carrying the tag, whatever children follow |
| XmlToJsonProps.FieldDeUrned | cspi-services/src/main/java/org/collectionspace/chain/csp/persistence/services/XmlJsonConversion.java:112-117 | the de-urned sibling holds the decoded name when it is non-empty and is left as it was when the decoded name is "" |
| XmlToJson.AddFieldToJson | cspi-services/src/main/java/org/collectionspace/chain/csp/persistence/services/XmlJsonConversion.java:105-119 | fails exactly when FieldJson does and otherwise leaves the caller's object equal to FieldJson of its old contents |
| XmlToJson.AddFieldSetToJson | cspi-services/src/main/java/org/collectionspace/chain/csp/persistence/services/XmlJsonConversion.java:279-284 | dispatches on Field or Repeat with no section filter; the caller's object ends as FieldSetJson of its old contents |
| XmlToJson.RepeatJson | cspi-services/src/main/java/org/collectionspace/chain/csp/persistence/services/XmlJsonConversion.java:255-277 | servicesNoRepeat overwrites the id with a one-element array of the first child's object (nothing when there are no children); a normal repeat without wrapper element sets no key |
| XmlToJson.AddRepeatToJson | cspi-services/src/main/java/org/collectionspace/chain/csp/persistence/services/XmlJsonConversion.java:255-277 | fails exactly when RepeatJson does and otherwise leaves the object equal to RepeatJson of its old contents, one wrapper element after another |
| XmlToJson.Merge | cspi-services/src/main/java/org/collectionspace/chain/csp/persistence/services/XmlJsonConversion.java:243-251 | absent id: the new array; an array already there: new groups followed by the old items; any other value there raises the not-an-array error |
| XmlToJson.AddRepeatedNodeToJson | cspi-services/src/main/java/org/collectionspace/chain/csp/persistence/services/XmlJsonConversion.java:194-252 | fails exactly when RepeatedNodeJson does (a uiNoRepeat repeat whose first child is a Repeat fails with the missing key, see UiNoRepeatNestedChild) and otherwise leaves the object equal to RepeatedNodeJson of its old contents |
| XmlToJson.GroupToJson | cspi-services/src/main/java/org/collectionspace/chain/csp/persistence/services/XmlJsonConversion.java:200-241 | the loop over the repeat's children for one group computes MemberJson from the empty object, including the missing-key failure of the uiNoRepeat early return for a Repeat child |
| XmlToJson.ChildJson | cspi-services/src/main/java/org/collectionspace/chain/csp/persistence/services/XmlJsonConversion.java:203-225 | a Field child's text goes under the child's id (the repeat's id with uiNoRepeat); a Repeat child leaves the object alone and adds one item to the shared array |
| XmlToJson.PutAttributes | cspi-services/src/main/java/org/collectionspace/chain/csp/persistence/services/XmlJsonConversion.java:232-235 | the object after the attribute loop is the old object overridden by every attribute, a later attribute of the same name winning |
| XmlToJson.AttrMapKeys | cspi-services/src/main/java/org/collectionspace/chain/csp/persistence/services/XmlJsonConversion.java:232-235 | the attribute map holds exactly the attribute names |
| XmlToJson.AttrMapLast | cspi-services/src/main/java/org/collectionspace/chain/csp/persistence/services/XmlJsonConversion.java:232-235 | and under each name the value of the last attribute with that name |
| XmlToJson.Resolve | cspi-services/src/main/java/org/collectionspace/chain/csp/persistence/services/XmlJsonConversion.java:237-241 | each slot becomes its group's object, or the final contents of the shared nested array |
| XmlToJsonProps.RepeatedNodeShape | cspi-services/src/main/java/org/collectionspace/chain/csp/persistence/services/XmlJsonConversion.java:198-251 | without uiNoRepeat: only the repeat id changes; it holds an array whose tail is the old array, and every new group object is non-empty and carries every attribute of the container |
| XmlToJsonProps.RepeatedNodeTags | cspi-services/src/main/java/org/collectionspace/chain/csp/persistence/services/XmlJsonConversion.java:201-203 | without uiNoRepeat the call succeeds only if every extracted group has an element for every child tag (a missing one is the null dereference) |
| XmlToJsonProps.MemberJsonShape | cspi-services/src/main/java/org/collectionspace/chain/csp/persistence/services/XmlJsonConversion.java:201-241 | the walk over one group's children never returns early without uiNoRepeat and adds only non-empty objects carrying the attributes |
| XmlToJsonProps.GroupsJsonShape | cspi-services/src/main/java/org/collectionspace/chain/csp/persistence/services/XmlJsonConversion.java:198-242 | the same for the walk over all groups |
| XmlToJsonProps.GroupsJsonTags | cspi-services/src/main/java/org/collectionspace/chain/csp/persistence/services/XmlJsonConversion.java:198-203 | a successful walk over the groups found every child tag in every group |
| XmlToJsonProps.MemberJsonTag | cspi-services/src/main/java/org/collectionspace/chain/csp/persistence/services/XmlJsonConversion.java:201-203 | a successful walk over one group found every remaining child tag in it |
| XmlToJsonProps.UiNoRepeatFirstChild | cspi-services/src/main/java/org/collectionspace/chain/csp/persistence/services/XmlJsonConversion.java:214-228 | with uiNoRepeat and a Field first child, the first group's text goes under that child's id and the call returns without setting the repeat's id |
| XmlToJsonProps.UiNoRepeatNestedChild | cspi-services/src/main/java/org/collectionspace/chain/csp/persistence/services/XmlJsonConversion.java:221-228 | with uiNoRepeat and a Repeat first child whose nested conversion succeeds, the call fails with the missing-key exception for the repeat's id |
| XmlToJson.ConvertToJson | cspi-services/src/main/java/org/collectionspace/chain/csp/persistence/services/XmlJsonConversion.java:286-292 | every field set of the record in turn into the caller's object, which ends as FieldsJson of its old contents |
| XmlToJson.ConvertToNewJson | cspi-services/src/main/java/org/collectionspace/chain/csp/persistence/services/XmlJsonConversion.java:294-298 | the same into a fresh object, which is returned |
| Xml.NamedFirst | cspi-services/src/main/java/org/collectionspace/chain/csp/persistence/services/XmlJsonConversion.java:106-110 | the first selected element is the first child carrying the tag |
| Json.OptString | cspi-services/src/main/java/org/collectionspace/chain/csp/persistence/services/XmlJsonConversion.java:33 | an absent key reads as "", a string as itself |
| RoundTrip.RepeatWrites | cspi-services/src/main/java/org/collectionspace/chain/csp/persistence/services/XmlJsonConversion.java:38-80 | JSON to XML of a flat repeat of object entries gives one wrapper holding, entry after entry, one element per child in schema order |
| RoundTrip.WrapperGroups | cspi-services/src/main/java/org/collectionspace/chain/csp/persistence/services/XmlJsonConversion.java:156-191 | extracting that wrapper gives back one group per entry, since each entry's elements form exactly one run |
| RoundTrip.WrapperReads | cspi-services/src/main/java/org/collectionspace/chain/csp/persistence/services/XmlJsonConversion.java:194-252 | reading the wrapper back merges the entries, in order, into the object under the repeat id |
| RoundTrip.RepeatReads | cspi-services/src/main/java/org/collectionspace/chain/csp/persistence/services/XmlJsonConversion.java:255-277 | the wrapper is read back as the entries, placed before any items already under the id |
| RoundTrip.RepeatRoundTrip | cspi-services/src/main/java/org/collectionspace/chain/csp/persistence/services/XmlJsonConversion.java:286-298 | headline round trip: converting a flat repeat's full entries to XML and back into a fresh object gives the same entries in the same order |
| RoundTrip.RoundTripInto | cspi-services/src/main/java/org/collectionspace/chain/csp/persistence/services/XmlJsonConversion.java:243-251 | converting into an object that already holds an array under the id puts the new entries before the old ones |
| RoundTrip.RepeatRoundTripTwice | cspi-services/src/main/java/org/collectionspace/chain/csp/persistence/services/XmlJsonConversion.java:243-251 | reading the same document twice into the same object doubles the entries |
| RoundTrip.PlainWrites | cspi-services/src/main/java/org/collectionspace/chain/csp/persistence/services/XmlJsonConversion.java:82-98 | JSON to XML of plain fields of the section writes one leaf per field, in schema order, holding optString of its id |
| RoundTrip.PlainReads | cspi-services/src/main/java/org/collectionspace/chain/csp/persistence/services/XmlJsonConversion.java:286-291 | reading plain fields whose tags each select one leaf puts every leaf's text under its field's id and keeps every other key |
| RoundTrip.PlainRoundTrip | cspi-services/src/main/java/org/collectionspace/chain/csp/persistence/services/XmlJsonConversion.java:286-298 | a record of plain fields with distinct ids and distinct tags, converted to the section's document and back, gives every declared id the input's text for it, "" when absent; undeclared keys of the target are kept |
| RoundTrip.SameNameScan | cspi-services/src/main/java/org/collectionspace/chain/csp/persistence/services/XmlJsonConversion.java:169-186 | elements that all carry one name of schema index 1 never start a new group: the scan ends with one open group holding the last element |
| RoundTrip.OneChildGroups | cspi-services/src/main/java/org/collectionspace/chain/csp/persistence/services/XmlJsonConversion.java:156-191 | the wrapper of a one-field repeat yields a single group, holding the last entry's element |
| RoundTrip.OneGroupReads | cspi-services/src/main/java/org/collectionspace/chain/csp/persistence/services/XmlJsonConversion.java:194-252 | a single group for a one-field repeat reads back as one object holding the element's text under the field's id |
| RoundTrip.OneChildCollapse | cspi-services/src/main/java/org/collectionspace/chain/csp/persistence/services/XmlJsonConversion.java:286-298 | a record whose one field set is a repeat of a single plain field, with any non-zero number of object entries, reads back into a fresh object as a one-element array holding only the last entry's value |
| RoundTrip.RepeatDocument | cspi-services/src/main/java/org/collectionspace/chain/csp/persistence/services/XmlJsonConversion.java:91-98 | the document of a one-repeat record holds exactly the wrapper |
| RoundTrip.MemberJsonFull | cspi-services/src/main/java/org/collectionspace/chain/csp/persistence/services/XmlJsonConversion.java:201-241 | reading one entry's group back puts every child's text under the child's id, giving the entry back |
| RoundTrip.GroupsJsonFull | cspi-services/src/main/java/org/collectionspace/chain/csp/persistence/services/XmlJsonConversion.java:198-242 | groups holding full entries read back as one object per entry, in order |
| Authorization.XxxDeurn | cspi-services/src/main/java/org/collectionspace/chain/csp/persistence/services/authorization/AuthorizationStorage.java:192-206 | a decoding failure happens only for a string starting with "urn:" and ending with a quote |
| Authorization.DeurnNotQuoted | cspi-services/src/main/java/org/collectionspace/chain/csp/persistence/services/authorization/AuthorizationStorage.java:193-196 | a string not starting with "urn:" or not ending with a quote comes back unchanged |
| Authorization.DeurnLoneQuote | cspi-services/src/main/java/org/collectionspace/chain/csp/persistence/services/authorization/AuthorizationStorage.java:197-200 | when the closing quote is the only quote the input comes back unchanged |
| Authorization.DeurnDisplayName | cspi-services/src/main/java/org/collectionspace/chain/csp/persistence/services/authorization/AuthorizationStorage.java:197-205 | otherwise the text between the last two quotes comes out URL-decoded, or the decoder's failure |
| Authorization.QueryParams | cspi-services/src/main/java/org/collectionspace/chain/csp/persistence/services/authorization/AuthorizationStorage.java:217-229 | no parameters exactly when the restrictions are null or hold none of keywords, pageSize, pageNum; exactly one parameter per key present and no other; present ones in the order res (URL-encoded), pgSz, pgNum |
| Authorization.ListPostfix | cspi-services/src/main/java/org/collectionspace/chain/csp/persistence/services/authorization/AuthorizationStorage.java:216-231 | the postfix built by successive appends and the final cut is "/" for no parameters and otherwise "?" with the parameters joined by "&" |
| Authorization.AppendParams | cspi-services/src/main/java/org/collectionspace/chain/csp/persistence/services/authorization/AuthorizationStorage.java:217-229 | the appending half leaves "?" followed by each present parameter and an "&" |
| Authorization.AppendedJoin | cspi-services/src/main/java/org/collectionspace/chain/csp/persistence/services/authorization/AuthorizationStorage.java:230 | cutting the last character of that string leaves "?" and the parameters joined by "&", no trailing "&" |
| Authorization.PostfixParams | cspi-services/src/main/java/org/collectionspace/chain/csp/persistence/services/authorization/AuthorizationStorage.java:230-231 | the postfix is "/" exactly when there are no parameters, and parameters without "&" can be read back from it |
| Authorization.AuthorizationStorage.constructor | cspi-services/src/main/java/org/collectionspace/chain/csp/persistence/services/authorization/AuthorizationStorage.java:49-80 | the three tables are ViewGood, ViewMap and ViewDeurn of the record |
| Authorization.AuthorizationStorage.Register | cspi-services/src/main/java/org/collectionspace/chain/csp/persistence/services/authorization/AuthorizationStorage.java:53-77 | one fieldset: its view name to its id, its tag to its id, its id into the de-URN set only with an autocomplete instance; nothing else changes |
| AuthorizationProps.ViewGoodNumber | cspi-services/src/main/java/org/collectionspace/chain/csp/persistence/services/authorization/AuthorizationStorage.java:53-58 | "number" is offered exactly when the record has a mini number, mapped to its id |
| AuthorizationProps.ViewGoodSummary | cspi-services/src/main/java/org/collectionspace/chain/csp/persistence/services/authorization/AuthorizationStorage.java:60-65 | "summary" is offered exactly when the record has a mini summary, mapped to its id |
| AuthorizationProps.ViewGoodList | cspi-services/src/main/java/org/collectionspace/chain/csp/persistence/services/authorization/AuthorizationStorage.java:67-69 | each summary-list fieldset is offered as "summarylist_"+id, mapped to its id |
| AuthorizationProps.ViewGoodOnly | cspi-services/src/main/java/org/collectionspace/chain/csp/persistence/services/authorization/AuthorizationStorage.java:52-79 | nothing else is offered, and never "summarylist" itself |
| AuthorizationProps.ViewMapEntries | cspi-services/src/main/java/org/collectionspace/chain/csp/persistence/services/authorization/AuthorizationStorage.java:55-70 | a services tag is in view_map exactly when some mini-view fieldset has it, mapped to the id of the last such fieldset |
| AuthorizationProps.ViewDeurnMembers | cspi-services/src/main/java/org/collectionspace/chain/csp/persistence/services/authorization/AuthorizationStorage.java:56-76 | xxx_view_deurn holds exactly the ids of the mini-view fieldsets with an autocomplete instance |
| Authorization.AuthorizationStorage.MiniViewRetrieve | cspi-services/src/main/java/org/collectionspace/chain/csp/persistence/services/authorization/AuthorizationStorage.java:372-421 | the method computes MiniView: the gleaning loop, then the full retrieval only when some field is left, then the summary list nested when non-empty |
| Authorization.AuthorizationStorage.Glean | cspi-services/src/main/java/org/collectionspace/chain/csp/persistence/services/authorization/AuthorizationStorage.java:376-395 | the first loop computes Gleaned over the key order, stopping at the first de-URN failure |
| Authorization.AuthorizationStorage.Fetch | cspi-services/src/main/java/org/collectionspace/chain/csp/persistence/services/authorization/AuthorizationStorage.java:398-415 | the second loop computes Fetched over the fields still to get |
| AuthorizationProps.GleanedAll | cspi-services/src/main/java/org/collectionspace/chain/csp/persistence/services/authorization/AuthorizationStorage.java:376-395 | the first loop succeeds exactly when every gleaned value de-URNs; it lays out the gleaned fields and leaves to fetch exactly the fields the cache lacks |
| AuthorizationProps.GleanedShows | cspi-services/src/main/java/org/collectionspace/chain/csp/persistence/services/authorization/AuthorizationStorage.java:378-394 | a gleaned value wins: each shown field is routed by its name and removed from the to-fetch set |
| AuthorizationProps.FetchedOk | cspi-services/src/main/java/org/collectionspace/chain/csp/persistence/services/authorization/AuthorizationStorage.java:399-415 | the second loop succeeds exactly when every value taken from the record de-URNs |
| AuthorizationProps.FetchedShows | cspi-services/src/main/java/org/collectionspace/chain/csp/persistence/services/authorization/AuthorizationStorage.java:399-415 | it adds only fields still to fetch that the record has; fields the record lacks are omitted |
| AuthorizationProps.RouteShows | cspi-services/src/main/java/org/collectionspace/chain/csp/persistence/services/authorization/AuthorizationStorage.java:386-393 | a "summarylist_" name goes with its prefix stripped into the summary list, any other name into the result |
| AuthorizationProps.AssembleShows | cspi-services/src/main/java/org/collectionspace/chain/csp/persistence/services/authorization/AuthorizationStorage.java:417-419 | the summary list is nested under "summarylist" exactly when it is non-empty |
| AuthorizationProps.MiniViewOutcome | cspi-services/src/main/java/org/collectionspace/chain/csp/persistence/services/authorization/AuthorizationStorage.java:372-421 | the call fails exactly when a shown value does not de-URN or when a field is left and the retrieval fails |
| AuthorizationProps.MiniViewContents | cspi-services/src/main/java/org/collectionspace/chain/csp/persistence/services/authorization/AuthorizationStorage.java:372-421 | a successful call shows exactly the fields whose value the cache or else the record holds, de-URNed where required, laid out by name |
| AuthorizationProps.MiniViewNoFetch | cspi-services/src/main/java/org/collectionspace/chain/csp/persistence/services/authorization/AuthorizationStorage.java:396-398 | when the cache holds every field the record is never retrieved: the outcome ignores the retrieval |
| AuthorizationProps.MiniViewFetchFails | cspi-services/src/main/java/org/collectionspace/chain/csp/persistence/services/authorization/AuthorizationStorage.java:396-398 | when some field is left and the retrieval fails, the call fails with that failure |
| AuthorizationProps.ExpectedSplit | cspi-services/src/main/java/org/collectionspace/chain/csp/persistence/services/authorization/AuthorizationStorage.java:376-416 | the fields shown are those of the first loop together with those the second adds |
| AuthorizationProps.RecordMiniView | cspi-services/src/main/java/org/collectionspace/chain/csp/persistence/services/authorization/AuthorizationStorage.java:372-421 | for the tables the constructor builds, a successful mini view shows exactly the expected fields |

## Left out

- HTTP and services I/O of `AuthorizationStorage` (`autocreateJSON`, `updateJSON`, `deleteJSON`, the connection calls of `getPaths`/`getPathsJSON`, `refViewRetrieveJSON`, `simpleRetrieveJSON`, status checks): network plumbing; the full retrieval of a record is the `fetched` field of `Authorization.Request`, an object or a failure.
- The request cache (`setGleanedValue`/`getGleanedValue`): the gleaned values for the record's path are the `glean` map of `Authorization.Request`.
- HashMap and HashSet iteration order: the key order of `view_good` is a parameter `order`; the loop over `to_get` is taken to visit the remaining names in that same order (only the de-URN failure that stops a loop can depend on the order).
- dom4j XPath beyond a plain name (`//action`, `@*` as such, `matches`): `selectNodes(tag)` is the direct children with that name and `selectNodes("@*")` the element's attribute list.
- `URNProcessor.deconstructURN`, `URLDecoder.decode`, `URLEncoder.encode` and org.json's text of an array or object value: uninterpreted function parameters (`DeUrn.UrnDecoder`, `Authorization.UrlDecoder`, `Authorization.UrlEncoder`, `Json.Serializer`).
- `getString` on a non-string value is modelled as its `toString` text (`Json.Text`); org.json's conversion of numbers is not modelled.
- Logging, `doc.asXML()` and the "ns2" prefix: the root keeps only its namespace URI and name.
- Null strings and null field sets: Dafny values are never null; the `urn == null` test after `urn.isEmpty()` is not modelled.
- XmlToJson.AddFieldSetToJson, XmlToJson.AddRepeatToJson, XmlToJson.AddRepeatedNodeToJson, XmlToJson.ConvertToJson: after a failure the source leaves the caller's object partly written; these methods say nothing about the object then.
- XmlToJson.Resolve: the shared `repeatarray` of nested repeats is one Java object appended to the result several times; the model puts its final contents in every place it was appended, which is what the aliasing shows once the call returns, but does not model later mutation through the alias.
- Authorization.XxxDeurn: its own contract states only where failure can come from; the three cases are the lemmas DeurnNotQuoted, DeurnLoneQuote and DeurnDisplayName.
- The listing itself in `getPaths`/`getPathsJSON` (gleaning values from the returned list, pagination): services I/O; only the postfix is modelled.
- HandleJSONTest is not part of this model: it exercises a file-backed store over HTTP.
