/** The string and map logic of the authorization storage: the display name of a URN, the query
    postfix of a listing request, the mini-view tables built from the record, and the routing
    of gleaned and fetched values into a mini view. The services connection and the request
    cache are parameters. */
module Authorization {
  import opened Common
  import opened Strings
  import opened Json
  import opened Schema

  /** URLDecoder.decode(s, "UTF8"): the decoded text, or None where the decoder throws
      (a malformed escape). */
  type UrlDecoder = string -> Option<string>

  /** URLEncoder.encode(s, "UTF-8"). */
  type UrlEncoder = string -> string

  const UrnPrefix := "urn:"
  const Quote: char := '\''

  /** xxx_deurn: a URN ending in 'Display%20Name' gives the URL-decoded display name between
      its last two quotes; any other string comes back as it is. */
  function XxxDeurn(s: string, urlDecode: UrlDecoder): (r: Result<string>)
    ensures r.Err? ==> StartsWith(s, UrnPrefix) && EndsWith(s, [Quote])
  {
    if !StartsWith(s, UrnPrefix) || !EndsWith(s, [Quote]) then Ok(s)
    else
      var body := s[..|s| - 1];
      var pos := LastIndexOf(body, Quote);
      if pos == -1 then Ok(body + [Quote])
      else
        match urlDecode(body[pos + 1..])
        case None => Err(UrlDecodeFailed(body[pos + 1..]))
        case Some(d) => Ok(d)
  }

  /** A string that is not a URN, or does not end in a quote, is its own display name. */
  lemma DeurnNotQuoted(s: string, urlDecode: UrlDecoder)
    requires !StartsWith(s, UrnPrefix) || !EndsWith(s, [Quote])
    ensures XxxDeurn(s, urlDecode) == Ok(s)
  {
  }

  /** When the closing quote is the only quote, the quote is stripped and put back: the URN
      comes back unchanged and the decoder is not consulted. */
  lemma {:induction false} DeurnLoneQuote(s: string, urlDecode: UrlDecoder)
    requires StartsWith(s, UrnPrefix) && EndsWith(s, [Quote])
    requires Quote !in s[..|s| - 1]
    ensures XxxDeurn(s, urlDecode) == Ok(s)
  {
    var body := s[..|s| - 1];
    var pos := LastIndexOf(body, Quote);
    assert body + [Quote] == s;
  }

  /** The display name quoted at the end of a URN is what comes out, URL-decoded; a name the
      decoder rejects is the decoding failure. */
  lemma {:induction false} DeurnDisplayName(urn: string, name: string, urlDecode: UrlDecoder)
    requires StartsWith(urn, UrnPrefix) && Quote !in name
    ensures var s := urn + [Quote] + name + [Quote];
            XxxDeurn(s, urlDecode) ==
              match urlDecode(name)
              case None => Err(UrlDecodeFailed(name))
              case Some(d) => Ok(d)
  {
    var s := urn + [Quote] + name + [Quote];
    assert s[..|UrnPrefix|] == urn[..|UrnPrefix|];
    assert s[|s| - 1..] == [Quote];
    var body := s[..|s| - 1];
    assert body == urn + [Quote] + name;
    var pos := LastIndexOf(body, Quote);
    assert body[|urn|] == Quote;
    assert pos == |urn|;
    assert body[pos + 1..] == name;
  }

  // ----- the query postfix of getPaths and getPathsJSON -----

  /** The query parameters a listing request sends, in the order the source appends them:
      the URL-encoded keywords, the page size, the page number. Absent restrictions (null)
      send none. */
  function QueryParams(restrictions: Option<JObject>, ser: Serializer, enc: UrlEncoder): (ps: seq<string>)
    ensures |ps| <= 3
    ensures restrictions.Some? ==>
      |ps| == (if "keywords" in restrictions.value then 1 else 0) + (if "pageSize" in restrictions.value then 1 else 0)
              + (if "pageNum" in restrictions.value then 1 else 0)
    ensures |ps| == 0 <==>
      restrictions.None? || ("keywords" !in restrictions.value && "pageSize" !in restrictions.value && "pageNum" !in restrictions.value)
    ensures restrictions.Some? && "keywords" in restrictions.value ==>
      ps[0] == "res=" + enc(Text(restrictions.value["keywords"], ser))
    ensures restrictions.Some? && "pageNum" in restrictions.value ==>
      ps[|ps| - 1] == "pgNum=" + Text(restrictions.value["pageNum"], ser)
    ensures restrictions.Some? && "pageSize" in restrictions.value ==>
      var k := if "keywords" in restrictions.value then 1 else 0;
      k < |ps| && ps[k] == "pgSz=" + Text(restrictions.value["pageSize"], ser)
  {
    match restrictions
    case None => []
    case Some(rs) => RestrictionParams(rs, ser, enc)
  }

  function RestrictionParams(rs: JObject, ser: Serializer, enc: UrlEncoder): seq<string> {
    KeywordParam(rs, ser, enc) + PlainParam(rs, "pageSize", "pgSz=", ser) + PlainParam(rs, "pageNum", "pgNum=", ser)
  }

  /** The keywords, URL-encoded, when present. */
  function KeywordParam(rs: JObject, ser: Serializer, enc: UrlEncoder): seq<string> {
    if "keywords" in rs then ["res=" + enc(Text(rs["keywords"], ser))] else []
  }

  /** A restriction sent as it is, under its parameter name, when present. */
  function PlainParam(rs: JObject, key: string, prefix: string, ser: Serializer): seq<string> {
    if key in rs then [prefix + Text(rs[key], ser)] else []
  }

  /** The postfix put after the services URL: "/" when there are no parameters, otherwise "?"
      and the parameters joined by "&". */
  function Postfix(ps: seq<string>): string {
    if |ps| == 0 then "/" else "?" + Join(ps, '&')
  }

  /** The postfix before its last character is cut: "?" and each parameter followed by "&",
      as the source appends them. */
  function Appended(ps: seq<string>): (r: string)
    ensures |r| > 0
  {
    if |ps| == 0 then "?" else Appended(ps[..|ps| - 1]) + (ps[|ps| - 1] + "&")
  }

  lemma AppendedStep(ps: seq<string>, more: seq<string>)
    requires |more| <= 1
    ensures Appended(ps + more) == Appended(ps) + (if |more| == 0 then "" else more[0] + "&")
  {
    if |more| == 1 {
      assert (ps + more)[..|ps|] == ps;
    } else {
      assert ps + more == ps;
    }
  }

  /** Cutting the last "&" leaves "?" and the parameters joined by "&". */
  lemma {:induction false} AppendedJoin(ps: seq<string>)
    requires |ps| > 0
    ensures Appended(ps) == "?" + Join(ps, '&') + "&"
  {
    if |ps| > 1 {
      var n := |ps| - 1;
      AppendedJoin(ps[..n]);
      JoinLast(ps);
    }
  }

  lemma {:induction false} JoinLast(ps: seq<string>)
    requires |ps| > 1
    ensures Join(ps, '&') == Join(ps[..|ps| - 1], '&') + "&" + ps[|ps| - 1]
    decreases |ps|
  {
    if |ps| > 2 {
      JoinLast(ps[1..]);
      assert ps[1..][..|ps| - 2] == ps[..|ps| - 1][1..];
    } else {
      assert ps[..1] == [ps[0]];
    }
  }

  /** The postfix as getPaths and getPathsJSON build it: "?" followed by each present
      parameter and "&", the last character cut, "/" if nothing is left. */
  method ListPostfix(restrictions: Option<JObject>, ser: Serializer, enc: UrlEncoder)
    returns (postfix: string)
    ensures postfix == Postfix(QueryParams(restrictions, ser, enc))
  {
    ghost var ps := QueryParams(restrictions, ser, enc);
    postfix := "?";
    if restrictions.Some? {
      postfix := AppendParams(restrictions.value, ser, enc);
    }
    if |ps| > 0 {
      AppendedJoin(ps);
      assert postfix[..|postfix| - 1] == "?" + Join(ps, '&');
    }
    postfix := postfix[..|postfix| - 1];
    if |postfix| == 0 {
      postfix := postfix + "/";
    }
  }

  /** The appending half of ListPostfix, for restrictions that are not null. */
  method AppendParams(rs: JObject, ser: Serializer, enc: UrlEncoder) returns (postfix: string)
    ensures postfix == Appended(RestrictionParams(rs, ser, enc))
  {
    postfix := "?";
    ghost var ps: seq<string> := [];
    if "keywords" in rs {
      var data := enc(Text(rs["keywords"], ser));
      postfix := postfix + ("res=" + data + "&");
      ps := [("res=" + data)];
      AppendedStep([], ps);
    }
    assert ps == KeywordParam(rs, ser, enc);
    AppendPlain(postfix, ps, rs, "pageSize", "pgSz=", ser);
    if "pageSize" in rs {
      postfix := postfix + ("pgSz=" + Text(rs["pageSize"], ser) + "&");
    }
    ps := ps + PlainParam(rs, "pageSize", "pgSz=", ser);
    AppendPlain(postfix, ps, rs, "pageNum", "pgNum=", ser);
    if "pageNum" in rs {
      postfix := postfix + ("pgNum=" + Text(rs["pageNum"], ser) + "&");
    }
    ps := ps + PlainParam(rs, "pageNum", "pgNum=", ser);
    assert ps == RestrictionParams(rs, ser, enc);
  }

  lemma AppendPlain(postfix: string, ps: seq<string>, rs: JObject, key: string, prefix: string, ser: Serializer)
    requires postfix == Appended(ps)
    ensures (if key in rs then postfix + (prefix + Text(rs[key], ser) + "&") else postfix)
         == Appended(ps + PlainParam(rs, key, prefix, ser))
  {
    AppendedStep(ps, PlainParam(rs, key, prefix, ser));
  }

  /** The parameters can be read back from the postfix when none of them holds a "&" (the
      encoder escapes it in the keywords; the page size and number are sent as given). */
  lemma PostfixParams(ps: seq<string>)
    requires forall k :: 0 <= k < |ps| ==> '&' !in ps[k]
    ensures |ps| == 0 <==> Postfix(ps) == "/"
    ensures |ps| > 0 ==> Postfix(ps)[0] == '?' && Fields(Postfix(ps)[1..], '&') == ps
  {
    if |ps| > 0 {
      FieldsJoin(ps, '&');
      assert Postfix(ps)[1..] == Join(ps, '&');
    }
  }

  // ----- the mini-view tables -----

  const SummaryListPrefix := "summarylist_"
  const SummaryListKey := "summarylist"

  /** The mini-view fieldsets in the order the constructor visits them: the number, the
      summary, then the summary list. */
  function MiniFields(r: Record): (fs: seq<FieldSet>)
    ensures |fs| == (if r.miniNumber.Some? then 1 else 0) + (if r.miniSummary.Some? then 1 else 0) + |r.miniSummaryList|
  {
    BaseFields(r) + r.miniSummaryList
  }

  /** A sequence of HashMap.put calls applied to m in order. */
  function PutAll(m: map<string, string>, puts: seq<(string, string)>): map<string, string> {
    if |puts| == 0 then m
    else
      var n := |puts| - 1;
      PutAll(m, puts[..n])[puts[n].0 := puts[n].1]
  }

  /** The view_good puts of the summary list: "summarylist_" + id to id. */
  function ListGood(list: seq<FieldSet>): (puts: seq<(string, string)>)
    ensures |puts| == |list|
  {
    if |list| == 0 then []
    else
      var n := |list| - 1;
      ListGood(list[..n]) + [(SummaryListPrefix + list[n].id, list[n].id)]
  }

  /** The view_good puts of the number and the summary. */
  function BaseGood(r: Record): seq<(string, string)> {
    (if r.miniNumber.Some? then [("number", r.miniNumber.value.id)] else [])
    + (if r.miniSummary.Some? then [("summary", r.miniSummary.value.id)] else [])
  }

  /** The view_map puts: each mini-view fieldset's services tag to its id. */
  function TagPuts(fs: seq<FieldSet>): (puts: seq<(string, string)>)
    ensures |puts| == |fs|
  {
    if |fs| == 0 then []
    else
      var n := |fs| - 1;
      TagPuts(fs[..n]) + [(fs[n].tag, fs[n].id)]
  }

  /** The ids of the fieldsets that have an autocomplete instance. */
  function DeurnIds(fs: seq<FieldSet>): set<string> {
    if |fs| == 0 then {}
    else
      var n := |fs| - 1;
      DeurnIds(fs[..n]) + (if HasAutocomplete(fs[n]) then {fs[n].id} else {})
  }

  /** view_good: the view field names the mini view offers, each to the field id it shows. */
  function ViewGood(r: Record): map<string, string> {
    PutAll(map[], BaseGood(r) + ListGood(r.miniSummaryList))
  }

  /** view_map: a services tag to the field id, the last mini-view fieldset with that tag
      winning. */
  function ViewMap(r: Record): map<string, string> {
    PutAll(map[], TagPuts(MiniFields(r)))
  }

  /** xxx_view_deurn: the ids whose values are URNs to de-URN. */
  function ViewDeurn(r: Record): set<string> {
    DeurnIds(MiniFields(r))
  }

  lemma PutAllAppend(m: map<string, string>, puts: seq<(string, string)>, p: (string, string))
    ensures PutAll(m, puts + [p]) == PutAll(m, puts)[p.0 := p.1]
  {
    assert (puts + [p])[..|puts|] == puts;
  }

  lemma ListGoodAppend(list: seq<FieldSet>, i: nat)
    requires i < |list|
    ensures ListGood(list[..i + 1]) == ListGood(list[..i]) + [(SummaryListPrefix + list[i].id, list[i].id)]
  {
    assert list[..i + 1][..i] == list[..i];
  }

  lemma TagPutsAppend(fs: seq<FieldSet>, f: FieldSet)
    ensures TagPuts(fs + [f]) == TagPuts(fs) + [(f.tag, f.id)]
  {
    assert (fs + [f])[..|fs|] == fs;
  }

  lemma DeurnIdsAppend(fs: seq<FieldSet>, f: FieldSet)
    ensures HasAutocomplete(f) ==> DeurnIds(fs + [f]) == DeurnIds(fs) + {f.id}
    ensures !HasAutocomplete(f) ==> DeurnIds(fs + [f]) == DeurnIds(fs)
  {
    assert (fs + [f])[..|fs|] == fs;
  }

  // ----- the mini view -----

  /** What one call of miniViewRetrieveJSON sees from outside: the values the request cache
      gleaned for the record, by field id; the outcome of the full retrieval of the record,
      used only when some field was not gleaned; the serialization of composite values; the
      URL decoder. */
  datatype Request = Request(glean: map<string, string>, fetched: Result<JObject>,
                             ser: Serializer, dec: UrlDecoder)

  /** The two objects miniViewRetrieveJSON fills and the view fields still to fetch. */
  datatype View = View(out: JObject, summary: JObject, toGet: set<string>)

  /** A view field named "summarylist_x" goes under x into the nested summary list; any other
      view field goes into the result under its own name. */
  function Route(v: View, fieldname: string, value: string): View {
    if StartsWith(fieldname, SummaryListPrefix)
    then v.(summary := v.summary[fieldname[|SummaryListPrefix|..] := JStr(value)])
    else v.(out := v.out[fieldname := JStr(value)])
  }

  /** The value shown for the field id good: de-URNed when good is in the de-URN set. */
  function Deurned(good: string, value: string, deurn: set<string>, dec: UrlDecoder): Result<string> {
    if good in deurn then XxxDeurn(value, dec) else Ok(value)
  }

  /** The first loop, over the view fields in `order` (the key set's iteration order): a field
      whose id the cache holds is routed and leaves the to-fetch set. */
  function Gleaned(good: map<string, string>, deurn: set<string>, req: Request, order: seq<string>): Result<View>
    requires forall fn :: fn in order ==> fn in good
  {
    if |order| == 0 then Ok(View(map[], map[], good.Keys))
    else
      var n := |order| - 1;
      var fieldname := order[n];
      assert forall fn :: fn in order[..n] ==> fn in order;
      match Gleaned(good, deurn, req, order[..n])
      case Err(e) => Err(e)
      case Ok(v) =>
        var id := good[fieldname];
        if id !in req.glean then Ok(v)
        else
          match Deurned(id, req.glean[id], deurn, req.dec)
          case Err(e) => Err(e)
          case Ok(value) => Ok(Route(v, fieldname, value).(toGet := v.toGet - {fieldname}))
  }

  /** The second loop, over the view fields still to fetch: a field the retrieved record has
      is routed; one it lacks is left out. */
  function Fetched(good: map<string, string>, deurn: set<string>, data: JObject, order: seq<string>,
                   toGet: set<string>, v: View, ser: Serializer, dec: UrlDecoder): Result<View>
    requires forall fn :: fn in order ==> fn in good
  {
    if |order| == 0 then Ok(v)
    else
      var n := |order| - 1;
      var fieldname := order[n];
      assert forall fn :: fn in order[..n] ==> fn in order;
      match Fetched(good, deurn, data, order[..n], toGet, v, ser, dec)
      case Err(e) => Err(e)
      case Ok(w) =>
        var id := good[fieldname];
        if fieldname !in toGet || id !in data then Ok(w)
        else
          match Deurned(id, Text(data[id], ser), deurn, dec)
          case Err(e) => Err(e)
          case Ok(value) => Ok(Route(w, fieldname, value))
  }

  /** The result object, with the summary list nested under "summarylist" when non-empty. */
  function Assemble(w: View): JObject {
    if |w.summary| > 0 then w.out[SummaryListKey := JObj(w.summary)] else w.out
  }

  /** miniViewRetrieveJSON: gleaned values first, then, only if some field is left, the full
      record for the rest. */
  function MiniView(good: map<string, string>, deurn: set<string>, req: Request, order: seq<string>): Result<JObject>
    requires forall fn :: fn in order ==> fn in good
  {
    match Gleaned(good, deurn, req, order)
    case Err(e) => Err(e)
    case Ok(v) =>
      if v.toGet == {} then Ok(Assemble(v))
      else
        match req.fetched
        case Err(e) => Err(e)
        case Ok(data) =>
          match Fetched(good, deurn, data, order, v.toGet, v, req.ser, req.dec)
          case Err(e) => Err(e)
          case Ok(w) => Ok(Assemble(w))
  }

  /** Once a prefix of the walk fails, the whole walk fails the same way. */
  lemma {:induction false} GleanedErrSticks(good: map<string, string>, deurn: set<string>, req: Request,
                                            order: seq<string>, j: nat)
    requires forall fn :: fn in order ==> fn in good
    requires j <= |order|
    requires forall fn :: fn in order[..j] ==> fn in good
    requires Gleaned(good, deurn, req, order[..j]).Err?
    ensures Gleaned(good, deurn, req, order) == Gleaned(good, deurn, req, order[..j])
    decreases |order| - j
  {
    if j < |order| {
      assert order[..j + 1][..j] == order[..j];
      assert forall fn :: fn in order[..j + 1] ==> fn in order;
      GleanedErrSticks(good, deurn, req, order, j + 1);
    } else {
      assert order[..j] == order;
    }
  }

  lemma {:induction false} FetchedErrSticks(good: map<string, string>, deurn: set<string>, data: JObject,
                                            order: seq<string>, toGet: set<string>, v: View,
                                            ser: Serializer, dec: UrlDecoder, j: nat)
    requires forall fn :: fn in order ==> fn in good
    requires j <= |order|
    requires forall fn :: fn in order[..j] ==> fn in good
    requires Fetched(good, deurn, data, order[..j], toGet, v, ser, dec).Err?
    ensures Fetched(good, deurn, data, order, toGet, v, ser, dec) == Fetched(good, deurn, data, order[..j], toGet, v, ser, dec)
    decreases |order| - j
  {
    if j < |order| {
      assert order[..j + 1][..j] == order[..j];
      assert forall fn :: fn in order[..j + 1] ==> fn in order;
      FetchedErrSticks(good, deurn, data, order, toGet, v, ser, dec, j + 1);
    } else {
      assert order[..j] == order;
    }
  }

  /** One step of the first loop, unfolded. */
  lemma GleanedStep(good: map<string, string>, deurn: set<string>, req: Request, order: seq<string>, i: nat)
    requires forall fn :: fn in order ==> fn in good
    requires i < |order|
    ensures forall fn :: fn in order[..i] ==> fn in good
    ensures forall fn :: fn in order[..i + 1] ==> fn in good
    ensures Gleaned(good, deurn, req, order[..i]).Ok? ==>
      var v := Gleaned(good, deurn, req, order[..i]).value;
      var id := good[order[i]];
      Gleaned(good, deurn, req, order[..i + 1]) ==
        if id !in req.glean then Ok(v)
        else
          match Deurned(id, req.glean[id], deurn, req.dec)
          case Err(e) => Err(e)
          case Ok(value) => Ok(Route(v, order[i], value).(toGet := v.toGet - {order[i]}))
  {
    assert order[..i + 1][..i] == order[..i];
    assert forall fn :: fn in order[..i + 1] ==> fn in order;
  }

  /** One step of the second loop, unfolded. */
  lemma FetchedStep(good: map<string, string>, deurn: set<string>, data: JObject, order: seq<string>,
                    toGet: set<string>, v: View, ser: Serializer, dec: UrlDecoder, i: nat)
    requires forall fn :: fn in order ==> fn in good
    requires i < |order|
    ensures forall fn :: fn in order[..i] ==> fn in good
    ensures forall fn :: fn in order[..i + 1] ==> fn in good
    ensures Fetched(good, deurn, data, order[..i], toGet, v, ser, dec).Ok? ==>
      var w := Fetched(good, deurn, data, order[..i], toGet, v, ser, dec).value;
      var id := good[order[i]];
      Fetched(good, deurn, data, order[..i + 1], toGet, v, ser, dec) ==
        if order[i] !in toGet || id !in data then Ok(w)
        else
          match Deurned(id, Text(data[id], ser), deurn, dec)
          case Err(e) => Err(e)
          case Ok(value) => Ok(Route(w, order[i], value))
  {
    assert order[..i + 1][..i] == order[..i];
    assert forall fn :: fn in order[..i + 1] ==> fn in order;
  }

  /** The fieldsets visited before the summary list. */
  function BaseFields(r: Record): seq<FieldSet> {
    (if r.miniNumber.Some? then [r.miniNumber.value] else [])
    + (if r.miniSummary.Some? then [r.miniSummary.value] else [])
  }

  /** One Register call, in terms of the puts and the fieldsets so far. */
  lemma RegisterStep(puts: seq<(string, string)>, fs: seq<FieldSet>, name: string, f: FieldSet)
    ensures PutAll(map[], puts + [(name, f.id)]) == PutAll(map[], puts)[name := f.id]
    ensures PutAll(map[], TagPuts(fs + [f])) == PutAll(map[], TagPuts(fs))[f.tag := f.id]
    ensures HasAutocomplete(f) ==> DeurnIds(fs + [f]) == DeurnIds(fs) + {f.id}
    ensures !HasAutocomplete(f) ==> DeurnIds(fs + [f]) == DeurnIds(fs)
  {
    PutAllAppend(map[], puts, (name, f.id));
    TagPutsAppend(fs, f);
    PutAllAppend(map[], TagPuts(fs), (f.tag, f.id));
    DeurnIdsAppend(fs, f);
  }

  /** The summary list's puts and fieldsets grow by one at each step of the loop. */
  lemma ListStep(bg: seq<(string, string)>, bf: seq<FieldSet>, list: seq<FieldSet>, i: nat)
    requires i < |list|
    ensures bg + ListGood(list[..i + 1]) == (bg + ListGood(list[..i])) + [(SummaryListPrefix + list[i].id, list[i].id)]
    ensures bf + list[..i + 1] == (bf + list[..i]) + [list[i]]
  {
    ListGoodAppend(list, i);
    assert list[..i + 1] == list[..i] + [list[i]];
  }

  /** The storage of one record type: the record and the mini-view tables the constructor
      builds from it. */
  class AuthorizationStorage {
    const record: Record
    var viewGood: map<string, string>
    var viewMap: map<string, string>
    var viewDeurn: set<string>

    /** Fills the three tables from the record's number, summary and summary list. */
    constructor(r: Record)
      ensures record == r
      ensures viewGood == ViewGood(r) && viewMap == ViewMap(r) && viewDeurn == ViewDeurn(r)
    {
      record := r;
      viewGood := map[];
      viewMap := map[];
      viewDeurn := {};
      new;
      ghost var bg: seq<(string, string)> := [];
      ghost var bf: seq<FieldSet> := [];
      if r.miniNumber.Some? {
        RegisterStep(bg, bf, "number", r.miniNumber.value);
        Register("number", r.miniNumber.value);
        bg := bg + [("number", r.miniNumber.value.id)];
        bf := bf + [r.miniNumber.value];
      }
      if r.miniSummary.Some? {
        RegisterStep(bg, bf, "summary", r.miniSummary.value);
        Register("summary", r.miniSummary.value);
        bg := bg + [("summary", r.miniSummary.value.id)];
        bf := bf + [r.miniSummary.value];
      }
      assert bg == BaseGood(r) && bf == BaseFields(r);
      var list := r.miniSummaryList;
      assert list[..0] == [] && ListGood([]) == [];
      assert bg + [] == bg && bf + [] == bf;
      for i := 0 to |list|
        invariant viewGood == PutAll(map[], bg + ListGood(list[..i]))
        invariant viewMap == PutAll(map[], TagPuts(bf + list[..i]))
        invariant viewDeurn == DeurnIds(bf + list[..i])
      {
        ListStep(bg, bf, list, i);
        RegisterStep(bg + ListGood(list[..i]), bf + list[..i], SummaryListPrefix + list[i].id, list[i]);
        Register(SummaryListPrefix + list[i].id, list[i]);
      }
      assert list[..|list|] == list;
    }

    /** The three puts the constructor makes for one mini-view fieldset: the view field name
        to the id, the services tag to the id, and the id into the de-URN set when the
        fieldset is a Field with an autocomplete instance. */
    method Register(name: string, f: FieldSet)
      modifies this
      ensures viewGood == old(viewGood)[name := f.id]
      ensures viewMap == old(viewMap)[f.tag := f.id]
      ensures HasAutocomplete(f) ==> viewDeurn == old(viewDeurn) + {f.id}
      ensures !HasAutocomplete(f) ==> viewDeurn == old(viewDeurn)
    {
      viewGood := viewGood[name := f.id];
      viewMap := viewMap[f.tag := f.id];
      if f.Field? && f.autocomplete.Some? {
        viewDeurn := viewDeurn + {f.id};
      }
    }

    /** miniViewRetrieveJSON for the record at one path, with the request cache's gleaned
        values and the full retrieval given by req, and order the iteration order of the key
        set of view_good. */
    method MiniViewRetrieve(req: Request, order: seq<string>) returns (res: Result<JObject>)
      requires forall fn :: fn in order ==> fn in viewGood
      ensures res == MiniView(viewGood, viewDeurn, req, order)
    {
      var gleaned := Glean(req, order);
      if gleaned.Err? {
        return Err(gleaned.failure);
      }
      var v := gleaned.value;
      if v.toGet != {} {
        if req.fetched.Err? {
          return Err(req.fetched.failure);
        }
        var fetched := Fetch(req.fetched.value, order, v, req.ser, req.dec);
        if fetched.Err? {
          return Err(fetched.failure);
        }
        v := fetched.value;
      }
      var out := v.out;
      if |v.summary| > 0 {
        out := out[SummaryListKey := JObj(v.summary)];
      }
      res := Ok(out);
    }

    /** The first loop of miniViewRetrieveJSON: every view field whose id the cache holds is
        shown from the cache and leaves the set of fields to fetch. */
    method Glean(req: Request, order: seq<string>) returns (res: Result<View>)
      requires forall fn :: fn in order ==> fn in viewGood
      ensures res == Gleaned(viewGood, viewDeurn, req, order)
    {
      var out: JObject := map[];
      var summary: JObject := map[];
      var toGet := viewGood.Keys;
      for i := 0 to |order|
        invariant forall fn :: fn in order[..i] ==> fn in viewGood
        invariant Gleaned(viewGood, viewDeurn, req, order[..i]) == Ok(View(out, summary, toGet))
      {
        var fieldname := order[i];
        var good := viewGood[fieldname];
        GleanedStep(viewGood, viewDeurn, req, order, i);
        if good !in req.glean {
          continue;
        }
        var gleaned := req.glean[good];
        if good in viewDeurn {
          var d := XxxDeurn(gleaned, req.dec);
          if d.Err? {
            GleanedErrSticks(viewGood, viewDeurn, req, order, i + 1);
            assert order[..|order|] == order;
            return Err(d.failure);
          }
          gleaned := d.value;
        }
        if StartsWith(fieldname, SummaryListPrefix) {
          summary := summary[fieldname[|SummaryListPrefix|..] := JStr(gleaned)];
        } else {
          out := out[fieldname := JStr(gleaned)];
        }
        toGet := toGet - {fieldname};
      }
      assert order[..|order|] == order;
      res := Ok(View(out, summary, toGet));
    }

    /** The second loop: every view field still to get whose id the full record holds is
        shown from the record. */
    method Fetch(data: JObject, order: seq<string>, v: View, ser: Serializer, dec: UrlDecoder)
      returns (res: Result<View>)
      requires forall fn :: fn in order ==> fn in viewGood
      ensures res == Fetched(viewGood, viewDeurn, data, order, v.toGet, v, ser, dec)
    {
      var out := v.out;
      var summary := v.summary;
      var toGet := v.toGet;
      for i := 0 to |order|
        invariant forall fn :: fn in order[..i] ==> fn in viewGood
        invariant Fetched(viewGood, viewDeurn, data, order[..i], v.toGet, v, ser, dec)
               == Ok(View(out, summary, toGet))
      {
        var fieldname := order[i];
        var good := viewGood[fieldname];
        FetchedStep(viewGood, viewDeurn, data, order, v.toGet, v, ser, dec, i);
        if fieldname !in toGet || good !in data {
          continue;
        }
        var value := Text(data[good], ser);
        if good in viewDeurn {
          var d := XxxDeurn(value, dec);
          if d.Err? {
            FetchedErrSticks(viewGood, viewDeurn, data, order, v.toGet, v, ser, dec, i + 1);
            assert order[..|order|] == order;
            return Err(d.failure);
          }
          value := d.value;
        }
        if StartsWith(fieldname, SummaryListPrefix) {
          summary := summary[fieldname[|SummaryListPrefix|..] := JStr(value)];
        } else {
          out := out[fieldname := JStr(value)];
        }
      }
      assert order[..|order|] == order;
      res := Ok(View(out, summary, toGet));
    }
  }
}
