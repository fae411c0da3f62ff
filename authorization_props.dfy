/** What the mini-view tables hold and what a mini view shows. */
module AuthorizationProps {
  import opened Common
  import opened Strings
  import opened Json
  import opened Schema
  import opened Authorization

  // ----- the tables -----

  /** A key is in the map after the puts exactly when it was there before or some put names it. */
  lemma {:induction false} PutAllKeys(m: map<string, string>, puts: seq<(string, string)>, k: string)
    ensures k in PutAll(m, puts) <==> k in m || exists i :: 0 <= i < |puts| && puts[i].0 == k
  {
    if |puts| > 0 {
      var n := |puts| - 1;
      PutAllKeys(m, puts[..n], k);
      if k != puts[n].0 && exists i :: 0 <= i < |puts| && puts[i].0 == k {
        var i :| 0 <= i < |puts| && puts[i].0 == k;
        assert puts[..n][i] == puts[i];
      }
    }
  }

  /** The value under a key is the one its last put gave. */
  lemma {:induction false} PutAllLast(m: map<string, string>, puts: seq<(string, string)>, i: nat)
    requires i < |puts|
    requires forall j :: i < j < |puts| ==> puts[j].0 != puts[i].0
    ensures puts[i].0 in PutAll(m, puts) && PutAll(m, puts)[puts[i].0] == puts[i].1
  {
    var n := |puts| - 1;
    if i < n {
      PutAllLast(m, puts[..n], i);
    }
  }

  lemma {:induction false} ListGoodAt(list: seq<FieldSet>, i: nat)
    requires i < |list|
    ensures ListGood(list)[i] == (SummaryListPrefix + list[i].id, list[i].id)
  {
    var n := |list| - 1;
    if i < n {
      ListGoodAt(list[..n], i);
    }
  }

  lemma {:induction false} TagPutsAt(fs: seq<FieldSet>, i: nat)
    requires i < |fs|
    ensures TagPuts(fs)[i] == (fs[i].tag, fs[i].id)
  {
    var n := |fs| - 1;
    if i < n {
      TagPutsAt(fs[..n], i);
    }
  }

  /** The de-URN set holds exactly the ids of the fieldsets with an autocomplete instance. */
  lemma {:induction false} DeurnIdsMembers(fs: seq<FieldSet>, x: string)
    ensures x in DeurnIds(fs) <==> exists i :: 0 <= i < |fs| && HasAutocomplete(fs[i]) && fs[i].id == x
  {
    if |fs| > 0 {
      var n := |fs| - 1;
      DeurnIdsMembers(fs[..n], x);
      if exists i :: 0 <= i < |fs| && HasAutocomplete(fs[i]) && fs[i].id == x {
        var i :| 0 <= i < |fs| && HasAutocomplete(fs[i]) && fs[i].id == x;
        if i < n {
          assert fs[..n][i] == fs[i];
        }
      }
    }
  }

  lemma PrefixedLength(id: string)
    ensures |SummaryListPrefix + id| >= 12
    ensures StartsWith(SummaryListPrefix + id, SummaryListPrefix)
  {
    assert (SummaryListPrefix + id)[..|SummaryListPrefix|] == SummaryListPrefix;
  }

  /** The view_good puts in the constructor's order. */
  function GoodPuts(r: Record): seq<(string, string)> {
    BaseGood(r) + ListGood(r.miniSummaryList)
  }

  /** A view_good put is either one of the base puts, whose names are short, or a summary-list
      put under its prefixed name. */
  lemma GoodPutAt(r: Record, j: nat)
    requires j < |GoodPuts(r)|
    ensures j < |BaseGood(r)| ==> GoodPuts(r)[j] == BaseGood(r)[j] && |GoodPuts(r)[j].0| < |SummaryListPrefix|
    ensures j >= |BaseGood(r)| ==>
      var f := r.miniSummaryList[j - |BaseGood(r)|];
      GoodPuts(r)[j] == (SummaryListPrefix + f.id, f.id) && |GoodPuts(r)[j].0| >= |SummaryListPrefix|
  {
    var base := BaseGood(r);
    if j >= |base| {
      ListGoodAt(r.miniSummaryList, j - |base|);
    }
  }

  /** view_good has "number" exactly when the record has a mini number, mapped to its id. */
  lemma ViewGoodNumber(r: Record)
    ensures "number" in ViewGood(r) <==> r.miniNumber.Some?
    ensures r.miniNumber.Some? ==> ViewGood(r)["number"] == r.miniNumber.value.id
  {
    var puts := GoodPuts(r);
    PutAllKeys(map[], puts, "number");
    if r.miniNumber.Some? {
      forall j | 0 < j < |puts| ensures puts[j].0 != puts[0].0 {
        GoodPutAt(r, j);
      }
      PutAllLast(map[], puts, 0);
    } else if "number" in ViewGood(r) {
      var i :| 0 <= i < |puts| && puts[i].0 == "number";
      GoodPutAt(r, i);
      assert false;
    }
  }

  /** view_good has "summary" exactly when the record has a mini summary, mapped to its id. */
  lemma ViewGoodSummary(r: Record)
    ensures "summary" in ViewGood(r) <==> r.miniSummary.Some?
    ensures r.miniSummary.Some? ==> ViewGood(r)["summary"] == r.miniSummary.value.id
  {
    var puts := GoodPuts(r);
    var n := |BaseGood(r)|;
    PutAllKeys(map[], puts, "summary");
    if r.miniSummary.Some? {
      forall j | n - 1 < j < |puts| ensures puts[j].0 != puts[n - 1].0 {
        GoodPutAt(r, j);
      }
      PutAllLast(map[], puts, n - 1);
    } else if "summary" in ViewGood(r) {
      var i :| 0 <= i < |puts| && puts[i].0 == "summary";
      GoodPutAt(r, i);
      assert false;
    }
  }

  /** Each summary-list fieldset is offered as "summarylist_" + its id, mapped to that id. */
  lemma ViewGoodList(r: Record, i: nat)
    requires i < |r.miniSummaryList|
    ensures var id := r.miniSummaryList[i].id;
            SummaryListPrefix + id in ViewGood(r) && ViewGood(r)[SummaryListPrefix + id] == id
  {
    forall j | 0 <= j < |BaseGood(r)| ensures |BaseGood(r)[j].0| < |SummaryListPrefix| {
      GoodPutAt(r, j);
    }
    ListLastPut(r.miniSummaryList, BaseGood(r), i);
  }

  /** view_good offers nothing else; in particular not "summarylist" itself. */
  lemma ViewGoodOnly(r: Record, k: string)
    requires k in ViewGood(r)
    ensures k == "number" || k == "summary" ||
      exists i :: 0 <= i < |r.miniSummaryList| && k == SummaryListPrefix + r.miniSummaryList[i].id
    ensures k != SummaryListKey
  {
    var puts := GoodPuts(r);
    PutAllKeys(map[], puts, k);
    var i :| 0 <= i < |puts| && puts[i].0 == k;
    GoodPutAt(r, i);
  }

  /** Every summary-list key is put with its own id, so the last put under it gives that id. */
  lemma ListLastPut(list: seq<FieldSet>, base: seq<(string, string)>, i: nat)
    requires i < |list|
    requires forall j :: 0 <= j < |base| ==> |base[j].0| < |SummaryListPrefix|
    ensures var id := list[i].id;
            SummaryListPrefix + id in PutAll(map[], base + ListGood(list))
            && PutAll(map[], base + ListGood(list))[SummaryListPrefix + id] == id
  {
    var puts := base + ListGood(list);
    var k := SummaryListPrefix + list[i].id;
    ListGoodAt(list, i);
    assert puts[|base| + i] == ListGood(list)[i];
    var last := LastWith(puts, k, |base| + i);
    PutAllLast(map[], puts, last);
    if last < |base| {
      assert false;
    } else {
      var m := last - |base|;
      ListGoodAt(list, m);
      assert puts[last] == ListGood(list)[m];
      PrefixStripped(list[m].id);
      PrefixStripped(list[i].id);
    }
  }

  lemma PrefixStripped(id: string)
    ensures (SummaryListPrefix + id)[|SummaryListPrefix|..] == id
  {
  }

  /** The last position at or after i whose key is k. */
  function LastWith(puts: seq<(string, string)>, k: string, i: nat): (last: nat)
    requires i < |puts| && puts[i].0 == k
    ensures i <= last < |puts| && puts[last].0 == k
    ensures forall j :: last < j < |puts| ==> puts[j].0 != k
    decreases |puts| - i
  {
    if exists j :: i < j < |puts| && puts[j].0 == k then
      var j :| i < j < |puts| && puts[j].0 == k;
      LastWith(puts, k, j)
    else i
  }

  /** view_map: a services tag is a key exactly when some mini-view fieldset has it, and it
      maps to the id of the last such fieldset in the constructor's order. */
  lemma ViewMapEntries(r: Record, k: string)
    ensures k in ViewMap(r) <==> exists i :: 0 <= i < |MiniFields(r)| && MiniFields(r)[i].tag == k
    ensures forall i :: 0 <= i < |MiniFields(r)| && MiniFields(r)[i].tag == k &&
                        (forall j :: i < j < |MiniFields(r)| ==> MiniFields(r)[j].tag != k) ==>
                        k in ViewMap(r) && ViewMap(r)[k] == MiniFields(r)[i].id
  {
    var fs := MiniFields(r);
    var puts := TagPuts(fs);
    forall i | 0 <= i < |fs| ensures puts[i] == (fs[i].tag, fs[i].id) {
      TagPutsAt(fs, i);
    }
    PutAllKeys(map[], puts, k);
    forall i | 0 <= i < |fs| && fs[i].tag == k && (forall j :: i < j < |fs| ==> fs[j].tag != k)
      ensures k in ViewMap(r) && ViewMap(r)[k] == fs[i].id
    {
      PutAllLast(map[], puts, i);
    }
  }

  /** xxx_view_deurn: exactly the ids of the mini-view fieldsets that have an autocomplete
      instance. */
  lemma ViewDeurnMembers(r: Record, x: string)
    ensures x in ViewDeurn(r) <==>
      exists i :: 0 <= i < |MiniFields(r)| && HasAutocomplete(MiniFields(r)[i]) && MiniFields(r)[i].id == x
  {
    DeurnIdsMembers(MiniFields(r), x);
  }

  // ----- the mini view -----

  /** The objects out and summary lay out the view fields of a: a plain name in out, a name
      "summarylist_" + n under n in summary, each value as a JSON string. */
  ghost predicate Shows(out: JObject, summary: JObject, a: map<string, string>) {
    && (forall k :: k in out <==> k in a && !StartsWith(k, SummaryListPrefix))
    && (forall k :: k in out ==> out[k] == JStr(a[k]))
    && (forall n :: n in summary <==> SummaryListPrefix + n in a)
    && (forall n :: n in summary ==> summary[n] == JStr(a[SummaryListPrefix + n]))
  }

  lemma PrefixSplit(k: string)
    requires StartsWith(k, SummaryListPrefix)
    ensures SummaryListPrefix + k[|SummaryListPrefix|..] == k
  {
    assert k == k[..|SummaryListPrefix|] + k[|SummaryListPrefix|..];
  }

  /** Routing one more view field lays out one more entry. */
  lemma RouteShows(v: View, a: map<string, string>, fieldname: string, value: string)
    requires Shows(v.out, v.summary, a)
    ensures Shows(Route(v, fieldname, value).out, Route(v, fieldname, value).summary, a[fieldname := value])
  {
    if StartsWith(fieldname, SummaryListPrefix) {
      RouteSummaryShows(v, a, fieldname, value);
    } else {
      RoutePlainShows(v, a, fieldname, value);
    }
  }

  lemma RouteSummaryShows(v: View, a: map<string, string>, fieldname: string, value: string)
    requires Shows(v.out, v.summary, a)
    requires StartsWith(fieldname, SummaryListPrefix)
    ensures Shows(v.out, v.summary[fieldname[|SummaryListPrefix|..] := JStr(value)], a[fieldname := value])
  {
    var a' := a[fieldname := value];
    var s := fieldname[|SummaryListPrefix|..];
    var summary := v.summary[s := JStr(value)];
    PrefixSplit(fieldname);
    forall n ensures SummaryListPrefix + n == fieldname <==> n == s {
      if SummaryListPrefix + n == fieldname {
        PrefixStripped(n);
      }
    }
    forall k ensures k in v.out <==> k in a' && !StartsWith(k, SummaryListPrefix) {
    }
    forall n ensures n in summary <==> SummaryListPrefix + n in a' {
    }
    forall n | n in summary ensures summary[n] == JStr(a'[SummaryListPrefix + n]) {
    }
  }

  lemma RoutePlainShows(v: View, a: map<string, string>, fieldname: string, value: string)
    requires Shows(v.out, v.summary, a)
    requires !StartsWith(fieldname, SummaryListPrefix)
    ensures Shows(v.out[fieldname := JStr(value)], v.summary, a[fieldname := value])
  {
    var a' := a[fieldname := value];
    forall n ensures SummaryListPrefix + n != fieldname {
      PrefixedLength(n);
    }
    forall n ensures n in v.summary <==> SummaryListPrefix + n in a' {
    }
    forall n | n in v.summary ensures v.summary[n] == JStr(a'[SummaryListPrefix + n]) {
    }
  }

  /** Where the value of the field with id `id` comes from: the cache first, then the retrieved
      record; None when neither has it. */
  function Found(id: string, req: Request): Option<string> {
    if id in req.glean then Some(req.glean[id])
    else if req.fetched.Ok? && id in req.fetched.value then Some(Text(req.fetched.value[id], req.ser))
    else None
  }

  /** Every found value that is shown can be shown: its de-URNing does not fail. */
  ghost predicate AllShowable(good: map<string, string>, deurn: set<string>, req: Request) {
    forall fn :: fn in good && Found(good[fn], req).Some? ==>
      Deurned(good[fn], Found(good[fn], req).value, deurn, req.dec).Ok?
  }

  ghost predicate AllGleaned(good: map<string, string>, req: Request) {
    forall fn :: fn in good ==> good[fn] in req.glean
  }

  /** The view fields a mini view shows, each with its shown value: the fields whose value is
      found and de-URNs. */
  ghost function Expected(good: map<string, string>, deurn: set<string>, req: Request): map<string, string> {
    map fn | fn in good && Found(good[fn], req).Some? &&
             Deurned(good[fn], Found(good[fn], req).value, deurn, req.dec).Ok?
      :: Deurned(good[fn], Found(good[fn], req).value, deurn, req.dec).value
  }

  /** The fields the first loop shows. */
  ghost function GleanMap(good: map<string, string>, deurn: set<string>, req: Request, order: seq<string>): map<string, string>
    requires forall fn :: fn in order ==> fn in good
  {
    map fn | fn in order && good[fn] in req.glean &&
             Deurned(good[fn], req.glean[good[fn]], deurn, req.dec).Ok?
      :: Deurned(good[fn], req.glean[good[fn]], deurn, req.dec).value
  }

  /** The fields the second loop adds. */
  ghost function FetchMap(good: map<string, string>, deurn: set<string>, data: JObject, order: seq<string>,
                          toGet: set<string>, ser: Serializer, dec: UrlDecoder): map<string, string>
    requires forall fn :: fn in order ==> fn in good
  {
    map fn | fn in order && fn in toGet && good[fn] in data &&
             Deurned(good[fn], Text(data[good[fn]], ser), deurn, dec).Ok?
      :: Deurned(good[fn], Text(data[good[fn]], ser), deurn, dec).value
  }

  lemma InitLast(order: seq<string>)
    requires |order| > 0
    ensures forall fn :: fn in order <==> fn in order[..|order| - 1] || fn == order[|order| - 1]
  {
    assert order == order[..|order| - 1] + [order[|order| - 1]];
  }

  lemma GleanMapStep(good: map<string, string>, deurn: set<string>, req: Request, order: seq<string>)
    requires forall fn :: fn in order ==> fn in good
    requires |order| > 0
    ensures forall fn :: fn in order[..|order| - 1] ==> fn in good
    ensures var fn := order[|order| - 1];
            var id := good[fn];
            var before := GleanMap(good, deurn, req, order[..|order| - 1]);
            GleanMap(good, deurn, req, order) ==
              if id in req.glean && Deurned(id, req.glean[id], deurn, req.dec).Ok?
              then before[fn := Deurned(id, req.glean[id], deurn, req.dec).value]
              else before
  {
    InitLast(order);
    var fn := order[|order| - 1];
    var id := good[fn];
    var before := GleanMap(good, deurn, req, order[..|order| - 1]);
    if id in req.glean && Deurned(id, req.glean[id], deurn, req.dec).Ok? {
      assert GleanMap(good, deurn, req, order) == before[fn := Deurned(id, req.glean[id], deurn, req.dec).value];
    } else {
      assert GleanMap(good, deurn, req, order) == before;
    }
  }

  /** The first loop succeeds exactly when every gleaned value de-URNs. */
  lemma {:induction false} GleanedOk(good: map<string, string>, deurn: set<string>, req: Request, order: seq<string>)
    requires forall fn :: fn in order ==> fn in good
    ensures Gleaned(good, deurn, req, order).Ok? <==>
      forall fn :: fn in order && good[fn] in req.glean ==> Deurned(good[fn], req.glean[good[fn]], deurn, req.dec).Ok?
  {
    if |order| > 0 {
      InitLast(order);
      GleanedOk(good, deurn, req, order[..|order| - 1]);
    }
  }

  /** A walk that succeeds has succeeded on its prefix. */
  lemma GleanedErrStops(good: map<string, string>, deurn: set<string>, req: Request, order: seq<string>)
    requires forall fn :: fn in order ==> fn in good
    requires |order| > 0
    requires Gleaned(good, deurn, req, order).Ok?
    ensures forall fn :: fn in order[..|order| - 1] ==> fn in good
    ensures Gleaned(good, deurn, req, order[..|order| - 1]).Ok?
  {
    InitLast(order);
  }

  /** When it succeeds, the first loop lays out the gleaned fields and leaves to fetch exactly
      the fields it did not glean. */
  lemma {:induction false} GleanedShows(good: map<string, string>, deurn: set<string>, req: Request, order: seq<string>)
    requires forall fn :: fn in order ==> fn in good
    requires Gleaned(good, deurn, req, order).Ok?
    ensures var v := Gleaned(good, deurn, req, order).value;
            Shows(v.out, v.summary, GleanMap(good, deurn, req, order))
            && forall fn :: fn in v.toGet <==> fn in good && !(fn in order && good[fn] in req.glean)
  {
    var n := |order| - 1;
    if n >= 0 {
      GleanMapStep(good, deurn, req, order);
      GleanedStep(good, deurn, req, order, n);
      GleanedErrStops(good, deurn, req, order);
      GleanedShows(good, deurn, req, order[..n]);
      InitLast(order);
      var id := good[order[n]];
      if id in req.glean {
        var prior := Gleaned(good, deurn, req, order[..n]).value;
        RouteShows(prior, GleanMap(good, deurn, req, order[..n]), order[n],
                   Deurned(id, req.glean[id], deurn, req.dec).value);
      }
    }
  }

  lemma FetchMapStep(good: map<string, string>, deurn: set<string>, data: JObject, order: seq<string>,
                     toGet: set<string>, ser: Serializer, dec: UrlDecoder, a: map<string, string>)
    requires forall fn :: fn in order ==> fn in good
    requires |order| > 0
    ensures forall fn :: fn in order[..|order| - 1] ==> fn in good
    ensures var fn := order[|order| - 1];
            var id := good[fn];
            var before := a + FetchMap(good, deurn, data, order[..|order| - 1], toGet, ser, dec);
            a + FetchMap(good, deurn, data, order, toGet, ser, dec) ==
              if fn in toGet && id in data && Deurned(id, Text(data[id], ser), deurn, dec).Ok?
              then before[fn := Deurned(id, Text(data[id], ser), deurn, dec).value]
              else before
  {
    InitLast(order);
    var fn := order[|order| - 1];
    var id := good[fn];
    var before := FetchMap(good, deurn, data, order[..|order| - 1], toGet, ser, dec);
    if fn in toGet && id in data && Deurned(id, Text(data[id], ser), deurn, dec).Ok? {
      var value := Deurned(id, Text(data[id], ser), deurn, dec).value;
      assert FetchMap(good, deurn, data, order, toGet, ser, dec) == before[fn := value];
    } else {
      assert FetchMap(good, deurn, data, order, toGet, ser, dec) == before;
    }
  }

  /** The second loop succeeds exactly when every value it takes from the record de-URNs. */
  lemma {:induction false} FetchedOk(good: map<string, string>, deurn: set<string>, data: JObject, order: seq<string>,
                                     toGet: set<string>, v: View, ser: Serializer, dec: UrlDecoder)
    requires forall fn :: fn in order ==> fn in good
    ensures Fetched(good, deurn, data, order, toGet, v, ser, dec).Ok? <==>
      forall fn :: fn in order && fn in toGet && good[fn] in data ==> Deurned(good[fn], Text(data[good[fn]], ser), deurn, dec).Ok?
  {
    if |order| > 0 {
      InitLast(order);
      FetchedOk(good, deurn, data, order[..|order| - 1], toGet, v, ser, dec);
    }
  }

  /** A walk that succeeds has succeeded on its prefix. */
  lemma FetchedErrStops(good: map<string, string>, deurn: set<string>, data: JObject, order: seq<string>,
                        toGet: set<string>, v: View, ser: Serializer, dec: UrlDecoder)
    requires forall fn :: fn in order ==> fn in good
    requires |order| > 0
    requires Fetched(good, deurn, data, order, toGet, v, ser, dec).Ok?
    ensures forall fn :: fn in order[..|order| - 1] ==> fn in good
    ensures Fetched(good, deurn, data, order[..|order| - 1], toGet, v, ser, dec).Ok?
  {
    InitLast(order);
  }

  /** When it succeeds, the second loop adds to the layout the fields still to fetch that the
      record has. */
  lemma {:induction false} FetchedShows(good: map<string, string>, deurn: set<string>, data: JObject, order: seq<string>,
                                        toGet: set<string>, v: View, ser: Serializer, dec: UrlDecoder, a: map<string, string>)
    requires forall fn :: fn in order ==> fn in good
    requires Shows(v.out, v.summary, a)
    requires Fetched(good, deurn, data, order, toGet, v, ser, dec).Ok?
    ensures var w := Fetched(good, deurn, data, order, toGet, v, ser, dec).value;
            Shows(w.out, w.summary, a + FetchMap(good, deurn, data, order, toGet, ser, dec))
  {
    var n := |order| - 1;
    if n >= 0 {
      FetchMapStep(good, deurn, data, order, toGet, ser, dec, a);
      FetchedStep(good, deurn, data, order, toGet, v, ser, dec, n);
      FetchedErrStops(good, deurn, data, order, toGet, v, ser, dec);
      FetchedShows(good, deurn, data, order[..n], toGet, v, ser, dec, a);
      var id := good[order[n]];
      if order[n] in toGet && id in data {
        var prior := Fetched(good, deurn, data, order[..n], toGet, v, ser, dec).value;
        RouteShows(prior, a + FetchMap(good, deurn, data, order[..n], toGet, ser, dec), order[n],
                   Deurned(id, Text(data[id], ser), deurn, dec).value);
      }
    } else {
      assert a + FetchMap(good, deurn, data, order, toGet, ser, dec) == a;
    }
  }

  /** What the caller receives, read back from the laid-out fields a: each plain name as itself,
      and the "summarylist_" names nested by suffix under "summarylist" when there are any. */
  ghost predicate ShownAs(res: JObject, a: map<string, string>) {
    && (forall k :: k != SummaryListKey ==> (k in res <==> k in a && !StartsWith(k, SummaryListPrefix)))
    && (forall k :: k != SummaryListKey && k in res ==> res[k] == JStr(a[k]))
    && (SummaryListKey in res <==> exists k :: k in a && StartsWith(k, SummaryListPrefix))
    && (SummaryListKey in res ==>
          && res[SummaryListKey].JObj?
          && (forall n :: n in res[SummaryListKey].fields <==> SummaryListPrefix + n in a)
          && (forall n :: n in res[SummaryListKey].fields ==> res[SummaryListKey].fields[n] == JStr(a[SummaryListPrefix + n])))
  }

  /** Nesting the summary list completes the layout. */
  lemma AssembleShows(w: View, a: map<string, string>)
    requires Shows(w.out, w.summary, a)
    requires SummaryListKey !in a
    ensures ShownAs(Assemble(w), a)
  {
    if |w.summary| > 0 {
      AssembleNested(w, a);
    } else {
      AssembleFlat(w, a);
    }
  }

  lemma AssembleNested(w: View, a: map<string, string>)
    requires Shows(w.out, w.summary, a)
    requires SummaryListKey !in a
    requires |w.summary| > 0
    ensures ShownAs(w.out[SummaryListKey := JObj(w.summary)], a)
  {
    var n :| n in w.summary;
    PrefixedLength(n);
    assert SummaryListPrefix + n in a;
  }

  lemma AssembleFlat(w: View, a: map<string, string>)
    requires Shows(w.out, w.summary, a)
    requires SummaryListKey !in a
    requires |w.summary| == 0
    ensures ShownAs(w.out, a)
  {
    forall k | k in a && StartsWith(k, SummaryListPrefix) ensures false {
      PrefixSplit(k);
    }
  }

  /** The key set in some order, once each or more. */
  ghost predicate Enumerates(order: seq<string>, good: map<string, string>) {
    forall fn :: fn in order <==> fn in good
  }

  /** After the first loop over all fields, the fields left are those the cache lacks. */
  lemma GleanedAll(good: map<string, string>, deurn: set<string>, req: Request, order: seq<string>)
    requires Enumerates(order, good)
    ensures Gleaned(good, deurn, req, order).Ok? <==>
      forall fn :: fn in good && good[fn] in req.glean ==> Deurned(good[fn], req.glean[good[fn]], deurn, req.dec).Ok?
    ensures Gleaned(good, deurn, req, order).Ok? ==>
      var v := Gleaned(good, deurn, req, order).value;
      Shows(v.out, v.summary, GleanMap(good, deurn, req, order))
      && (forall fn :: fn in v.toGet <==> fn in good && good[fn] !in req.glean)
      && (v.toGet == {} <==> AllGleaned(good, req))
  {
    GleanedOk(good, deurn, req, order);
    if Gleaned(good, deurn, req, order).Ok? {
      GleanedShows(good, deurn, req, order);
      var v := Gleaned(good, deurn, req, order).value;
      if v.toGet != {} {
        var fn :| fn in v.toGet;
      }
    }
  }

  /** miniViewRetrieveJSON fails exactly when a value it shows does not de-URN, or when it needs
      the record and the record cannot be retrieved. */
  lemma MiniViewOutcome(good: map<string, string>, deurn: set<string>, req: Request, order: seq<string>)
    requires Enumerates(order, good)
    ensures MiniView(good, deurn, req, order).Ok? <==>
      AllShowable(good, deurn, req) && (req.fetched.Err? ==> AllGleaned(good, req))
  {
    GleanedAll(good, deurn, req, order);
    var g := Gleaned(good, deurn, req, order);
    if g.Ok? && g.value.toGet != {} && req.fetched.Ok? {
      var v := g.value;
      var data := req.fetched.value;
      FetchedOk(good, deurn, data, order, v.toGet, v, req.ser, req.dec);
      forall fn | fn in good && Found(good[fn], req).Some?
        ensures (good[fn] in req.glean ==> Found(good[fn], req).value == req.glean[good[fn]])
        ensures (good[fn] !in req.glean ==> fn in v.toGet && good[fn] in data && Found(good[fn], req).value == Text(data[good[fn]], req.ser))
      {
      }
    }
  }

  /** When miniViewRetrieveJSON succeeds, it shows every view field whose value the cache or the
      retrieved record holds, the cache winning, de-URNed where the field is in the de-URN set,
      the summary-list fields nested under "summarylist", and nothing else. */
  lemma MiniViewContents(good: map<string, string>, deurn: set<string>, req: Request, order: seq<string>)
    requires Enumerates(order, good)
    requires SummaryListKey !in good
    requires MiniView(good, deurn, req, order).Ok?
    ensures ShownAs(MiniView(good, deurn, req, order).value, Expected(good, deurn, req))
  {
    GleanedAll(good, deurn, req, order);
    var v := Gleaned(good, deurn, req, order).value;
    var glean := GleanMap(good, deurn, req, order);
    if v.toGet == {} {
      ExpectedGleaned(good, deurn, req, order);
      AssembleShows(v, glean);
    } else {
      var data := req.fetched.value;
      FetchedShows(good, deurn, data, order, v.toGet, v, req.ser, req.dec, glean);
      ExpectedSplit(good, deurn, req, order, v.toGet);
      AssembleShows(Fetched(good, deurn, data, order, v.toGet, v, req.ser, req.dec).value, Expected(good, deurn, req));
    }
  }

  /** With everything in the cache, the fields shown are those the first loop shows. */
  lemma ExpectedGleaned(good: map<string, string>, deurn: set<string>, req: Request, order: seq<string>)
    requires Enumerates(order, good)
    requires AllGleaned(good, req)
    ensures Expected(good, deurn, req) == GleanMap(good, deurn, req, order)
  {
  }

  /** Otherwise they are those of the first loop and those the second loop adds. */
  lemma ExpectedSplit(good: map<string, string>, deurn: set<string>, req: Request, order: seq<string>, toGet: set<string>)
    requires Enumerates(order, good)
    requires req.fetched.Ok?
    requires forall fn :: fn in toGet <==> fn in good && good[fn] !in req.glean
    ensures Expected(good, deurn, req) ==
      GleanMap(good, deurn, req, order) + FetchMap(good, deurn, req.fetched.value, order, toGet, req.ser, req.dec)
  {
  }

  /** A record the cache holds entirely is never retrieved: the outcome does not depend on the
      retrieval. */
  lemma MiniViewNoFetch(good: map<string, string>, deurn: set<string>, req: Request, order: seq<string>, other: Result<JObject>)
    requires Enumerates(order, good)
    requires AllGleaned(good, req)
    ensures MiniView(good, deurn, req, order) == MiniView(good, deurn, req.(fetched := other), order)
  {
    GleanedAll(good, deurn, req, order);
    GleanedIgnoresFetch(good, deurn, req, order, other);
  }

  lemma {:induction false} GleanedIgnoresFetch(good: map<string, string>, deurn: set<string>, req: Request,
                                               order: seq<string>, other: Result<JObject>)
    requires forall fn :: fn in order ==> fn in good
    ensures Gleaned(good, deurn, req, order) == Gleaned(good, deurn, req.(fetched := other), order)
  {
    if |order| > 0 {
      InitLast(order);
      GleanedIgnoresFetch(good, deurn, req, order[..|order| - 1], other);
    }
  }

  /** When some field is not in the cache and the retrieval fails, the call fails with the
      retrieval's error, unless a cached value failed to de-URN first. */
  lemma MiniViewFetchFails(good: map<string, string>, deurn: set<string>, req: Request, order: seq<string>)
    requires Enumerates(order, good)
    requires !AllGleaned(good, req)
    requires req.fetched.Err?
    requires forall fn :: fn in good && good[fn] in req.glean ==> Deurned(good[fn], req.glean[good[fn]], deurn, req.dec).Ok?
    ensures MiniView(good, deurn, req, order) == Err(req.fetched.failure)
  {
    GleanedAll(good, deurn, req, order);
  }

  /** For the tables a storage builds from a record: a successful mini view shows exactly the
      expected fields, laid out as above. */
  lemma RecordMiniView(r: Record, req: Request, order: seq<string>)
    requires Enumerates(order, ViewGood(r))
    requires MiniView(ViewGood(r), ViewDeurn(r), req, order).Ok?
    ensures ShownAs(MiniView(ViewGood(r), ViewDeurn(r), req, order).value, Expected(ViewGood(r), ViewDeurn(r), req))
  {
    if SummaryListKey in ViewGood(r) {
      ViewGoodOnly(r, SummaryListKey);
    }
    MiniViewContents(ViewGood(r), ViewDeurn(r), req, order);
  }
}
