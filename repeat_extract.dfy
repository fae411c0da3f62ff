/** extractRepeats: recovering the instances of a repeat from the flat sequence of elements
    under its wrapper, using only the schema position of each element's name. */
module RepeatExtract {
  import opened Common
  import opened Xml
  import opened Schema

  /** One recovered instance: element name to element. The source stores a one-element list
      per name; the list always holds exactly the last element seen, so the model stores it. */
  type Group = map<string, Element>

  /** The loop's variables: the finished groups (out), the open group (member, null until the
      first known element) and the schema index of the previous known element (prev). */
  datatype ScanState = ScanState(done: seq<Group>, member: Option<Group>, prev: int)

  /** prev starts at Integer.MAX_VALUE in the source; any value above every schema index
      behaves the same, and the length of the field list is one. */
  function Start(fields: seq<string>): ScanState {
    ScanState([], None, |fields|)
  }

  /** One element of the wrapper: unknown names are skipped; an index strictly below the
      previous one closes the open group and opens a new one; the element is then stored
      under its name, replacing an earlier one of the same name. (An open group is always
      present once prev is below the start value, so the second disjunct never decides.) */
  function Step(index: map<string, nat>, st: ScanState, node: Element): ScanState {
    if node.name !in index then st
    else
      var next := index[node.name];
      if next < st.prev || st.member.None? then
        ScanState(st.done + Closed(st.member), Some(map[node.name := node]), next)
      else
        ScanState(st.done, Some(st.member.value[node.name := node]), next)
  }

  function Closed(member: Option<Group>): seq<Group> {
    if member.Some? then [member.value] else []
  }

  /** The state after scanning nodes in document order. */
  function Scan(index: map<string, nat>, st: ScanState, nodes: seq<Element>): ScanState {
    if |nodes| == 0 then st
    else Step(index, Scan(index, st, nodes[..|nodes| - 1]), nodes[|nodes| - 1])
  }

  /** extractRepeats as a function: the groups of the container's children for schema node f. */
  function RepeatGroups(container: Element, f: FieldSet): seq<Group> {
    var fields := FieldList(f);
    var st := Scan(FieldIndex(fields), Start(fields), container.children);
    st.done + Closed(st.member)
  }

  /** The first loop of extractRepeats: each name of the field list to its position, a later
      position replacing an earlier one as HashMap.put does. */
  method BuildIndex(fields: seq<string>) returns (index: map<string, nat>)
    ensures index == FieldIndex(fields)
  {
    index := map[];
    var i := 0;
    while i < |fields|
      invariant 0 <= i <= |fields|
      invariant index == FieldIndex(fields[..i])
    {
      assert fields[..i + 1][..i] == fields[..i];
      index := index[fields[i] := i];
      i := i + 1;
    }
    assert fields[..|fields|] == fields;
  }

  /** extractRepeats as the source runs it. */
  method ExtractRepeats(container: Element, f: FieldSet) returns (out: seq<Group>)
    ensures out == RepeatGroups(container, f)
  {
    var fields := FieldList(f);
    var fieldIndex := BuildIndex(fields);
    out := [];
    var member: Option<Group> := None;
    var prev: int := |fields|;
    var nodes := container.children;
    var k := 0;
    while k < |nodes|
      invariant 0 <= k <= |nodes|
      invariant ScanState(out, member, prev) == Scan(fieldIndex, Start(fields), nodes[..k])
      invariant member.None? ==> prev == |fields|
    {
      ghost var before := ScanState(out, member, prev);
      ScanNext(fieldIndex, Start(fields), nodes, k);
      var node := nodes[k];
      if node.name in fieldIndex {
        var next := fieldIndex[node.name];
        assert next < |fields|;
        if next < prev {
          // must be a new instance
          if member.Some? {
            out := out + [member.value];
          }
          member := Some(map[]);
        }
        prev := next;
        member := Some(member.value[node.name := node]);
      }
      assert ScanState(out, member, prev) == Step(fieldIndex, before, node);
      k := k + 1;
    }
    assert nodes[..|nodes|] == nodes;
    if member.Some? {
      out := out + [member.value];
    }
  }

  lemma ScanNext(index: map<string, nat>, st: ScanState, nodes: seq<Element>, k: nat)
    requires k < |nodes|
    ensures Scan(index, st, nodes[..k + 1]) == Step(index, Scan(index, st, nodes[..k]), nodes[k])
  {
    assert nodes[..k + 1][..k] == nodes[..k];
  }

  // ---------------------------------------------------------------------------------------
  // An independent description of the result: the known elements, tagged with their schema
  // index, cut into maximal runs whose indices never decrease.

  type Tagged = (nat, Element)

  /** The children whose names the index knows, with their schema index, in document order. */
  function Known(index: map<string, nat>, nodes: seq<Element>): (ks: seq<Tagged>)
    ensures |ks| <= |nodes|
    ensures forall p :: 0 <= p < |ks| ==> ks[p].1 in nodes && ks[p].1.name in index && index[ks[p].1.name] == ks[p].0
  {
    if |nodes| == 0 then []
    else
      var last := nodes[|nodes| - 1];
      var ks := Known(index, nodes[..|nodes| - 1]);
      if last.name in index then ks + [(index[last.name], last)] else ks
  }

  /** The tagged elements cut before every strict decrease of the index. */
  function Runs(ks: seq<Tagged>): (rs: seq<seq<Tagged>>)
    ensures |rs| == 0 <==> |ks| == 0
  {
    if |ks| == 0 then []
    else
      var n := |ks| - 1;
      var rs := Runs(ks[..n]);
      if |rs| == 0 || ks[n].0 < ks[n - 1].0 then rs + [[ks[n]]]
      else rs[..|rs| - 1] + [rs[|rs| - 1] + [ks[n]]]
  }

  /** A run as a group: each element under its name, a later one replacing an earlier one. */
  function GroupOf(run: seq<Tagged>): Group {
    if |run| == 0 then map[]
    else GroupOf(run[..|run| - 1])[run[|run| - 1].1.name := run[|run| - 1].1]
  }

  function GroupsOf(runs: seq<seq<Tagged>>): (gs: seq<Group>)
    ensures |gs| == |runs|
    ensures forall q :: 0 <= q < |runs| ==> gs[q] == GroupOf(runs[q])
  {
    if |runs| == 0 then [] else GroupsOf(runs[..|runs| - 1]) + [GroupOf(runs[|runs| - 1])]
  }

  function Flatten(runs: seq<seq<Tagged>>): seq<Tagged> {
    if |runs| == 0 then [] else Flatten(runs[..|runs| - 1]) + runs[|runs| - 1]
  }

  ghost predicate NonDecreasing(run: seq<Tagged>) {
    forall i, j :: 0 <= i <= j < |run| ==> run[i].0 <= run[j].0
  }

  function LastIndex(run: seq<Tagged>): nat
    requires |run| > 0
  {
    run[|run| - 1].0
  }

  /** Piece q starts strictly below the index at which piece q - 1 ends. */
  ghost predicate DropsAt(runs: seq<seq<Tagged>>, q: nat)
    requires 0 < q < |runs|
  {
    |runs[q - 1]| > 0 && |runs[q]| > 0 && runs[q][0].0 < LastIndex(runs[q - 1])
  }

  /** runs cut ks into non-empty, non-decreasing pieces, each starting strictly below the
      end of the one before. */
  ghost predicate IsRunPartition(ks: seq<Tagged>, runs: seq<seq<Tagged>>) {
    && Flatten(runs) == ks
    && (forall q :: 0 <= q < |runs| ==> |runs[q]| > 0 && NonDecreasing(runs[q]))
    && (forall q :: 0 < q < |runs| ==> DropsAt(runs, q))
  }

  /** Every run is non-empty and the last run ends with the last tagged element. */
  lemma {:induction false} RunsShape(ks: seq<Tagged>)
    ensures forall q :: 0 <= q < |Runs(ks)| ==> |Runs(ks)[q]| > 0
    ensures |ks| > 0 ==> LastIndex(Runs(ks)[|Runs(ks)| - 1]) == ks[|ks| - 1].0
  {
    if |ks| > 0 {
      var n := |ks| - 1;
      RunsShape(ks[..n]);
    }
  }

  /** Cutting loses nothing and reorders nothing. */
  lemma {:induction false} RunsFlatten(ks: seq<Tagged>)
    ensures Flatten(Runs(ks)) == ks
  {
    if |ks| > 0 {
      var n := |ks| - 1;
      var rs := Runs(ks[..n]);
      RunsFlatten(ks[..n]);
      var r := Runs(ks);
      assert ks == ks[..n] + [ks[n]];
      if |rs| == 0 || ks[n].0 < ks[n - 1].0 {
        assert r[..|r| - 1] == rs;
      } else {
        var m := |rs| - 1;
        assert r[..m] == rs[..m];
        assert rs == rs[..m] + [rs[m]];
        assert Flatten(rs) == Flatten(rs[..m]) + rs[m];
      }
    }
  }

  /** Within a run the index never decreases. */
  lemma {:induction false} RunsNonDecreasing(ks: seq<Tagged>)
    ensures forall q :: 0 <= q < |Runs(ks)| ==> NonDecreasing(Runs(ks)[q])
  {
    if |ks| > 0 {
      var n := |ks| - 1;
      var rs := Runs(ks[..n]);
      RunsNonDecreasing(ks[..n]);
      if !(|rs| == 0 || ks[n].0 < ks[n - 1].0) {
        RunsShape(ks[..n]);
        var m := |rs| - 1;
        assert ks[..n][n - 1] == ks[n - 1];
        assert NonDecreasing(rs[m]);
        assert NonDecreasing(rs[m] + [ks[n]]);
      }
    }
  }

  /** Every run after the first starts strictly below the end of the run before it. */
  lemma {:induction false} RunsDrop(ks: seq<Tagged>)
    ensures forall q :: 0 < q < |Runs(ks)| ==> DropsAt(Runs(ks), q)
  {
    if |ks| > 0 {
      var n := |ks| - 1;
      var rs := Runs(ks[..n]);
      RunsDrop(ks[..n]);
      RunsShape(ks[..n]);
      RunsShape(ks);
      var r := Runs(ks);
      if n >= 1 {
        assert ks[..n][n - 1] == ks[n - 1];
      }
      forall q | 0 < q < |r|
        ensures DropsAt(r, q)
      {
        if q < |rs| - 1 || (q == |rs| - 1 && !(ks[n].0 < ks[n - 1].0)) {
          assert r[q - 1] == rs[q - 1];
          assert r[q][0] == rs[q][0];
          assert DropsAt(rs, q);
        } else if q == |rs| - 1 {
          assert r[q] == rs[q] && r[q - 1] == rs[q - 1];
          assert DropsAt(rs, q);
        } else {
          assert r[q - 1] == rs[|rs| - 1];
        }
      }
    }
  }

  /** Runs is such a partition: nothing is lost or reordered, and a new piece starts exactly
      where the index drops. */
  lemma RunsPartition(ks: seq<Tagged>)
    ensures IsRunPartition(ks, Runs(ks))
  {
    RunsShape(ks);
    RunsFlatten(ks);
    RunsNonDecreasing(ks);
    RunsDrop(ks);
  }

  /** Appending a non-decreasing piece that starts below the current end adds one run. */
  lemma {:induction false} RunsAppendRun(ks: seq<Tagged>, run: seq<Tagged>)
    requires |run| > 0 && NonDecreasing(run)
    requires |ks| > 0 ==> run[0].0 < ks[|ks| - 1].0
    ensures Runs(ks + run) == Runs(ks) + [run]
  {
    var n := |run| - 1;
    if n == 0 {
      RunsAppendOne(ks, run);
    } else {
      NonDecreasingPrefix(run, n);
      RunsAppendRun(ks, run[..n]);
      AppendSplit(ks, run);
      RunsGrow(ks + run[..n], run[n], ks + run, Runs(ks), run[..n]);
      SplitLast(run);
    }
  }

  lemma RunsAppendOne(ks: seq<Tagged>, run: seq<Tagged>)
    requires |run| == 1
    requires |ks| > 0 ==> run[0].0 < ks[|ks| - 1].0
    ensures Runs(ks + run) == Runs(ks) + [run]
  {
    assert run == [run[0]];
    RunsStepNew(ks, run[0]);
  }

  lemma NonDecreasingPrefix(run: seq<Tagged>, n: nat)
    requires n <= |run| && NonDecreasing(run)
    ensures NonDecreasing(run[..n])
  {
  }

  /** Growing the last run, piece, by an element x that does not drop below its end. */
  lemma RunsGrow(front: seq<Tagged>, x: Tagged, whole: seq<Tagged>, rs: seq<seq<Tagged>>, piece: seq<Tagged>)
    requires whole == front + [x]
    requires Runs(front) == rs + [piece]
    requires |piece| > 0 && piece[|piece| - 1].0 <= x.0
    ensures Runs(whole) == rs + [piece + [x]]
  {
    RunsShape(front);
    RunsStepExtend(front, x);
    ExtendLast(Runs(front), rs, piece, x);
  }

  lemma ExtendLast(r: seq<seq<Tagged>>, rs: seq<seq<Tagged>>, piece: seq<Tagged>, x: Tagged)
    requires r == rs + [piece]
    ensures r[..|r| - 1] + [r[|r| - 1] + [x]] == rs + [piece + [x]]
  {
    assert r[..|r| - 1] == rs;
  }

  /** An element below the current end starts a new run. */
  lemma RunsStepNew(ks: seq<Tagged>, x: Tagged)
    requires |ks| > 0 ==> x.0 < ks[|ks| - 1].0
    ensures Runs(ks + [x]) == Runs(ks) + [[x]]
  {
    assert (ks + [x])[..|ks|] == ks;
  }

  /** An element at or above the current end extends the last run. */
  lemma RunsStepExtend(ks: seq<Tagged>, x: Tagged)
    requires |ks| > 0 && ks[|ks| - 1].0 <= x.0
    ensures |Runs(ks)| > 0
    ensures Runs(ks + [x]) == Runs(ks)[..|Runs(ks)| - 1] + [Runs(ks)[|Runs(ks)| - 1] + [x]]
  {
    assert (ks + [x])[..|ks|] == ks;
  }

  /** The cut is the only run partition: any partition of ks into non-empty, non-decreasing
      pieces that drop at every boundary is Runs(ks). */
  lemma {:induction false} RunPartitionUnique(ks: seq<Tagged>, runs: seq<seq<Tagged>>)
    requires IsRunPartition(ks, runs)
    ensures runs == Runs(ks)
    decreases |runs|
  {
    if |runs| > 0 {
      var n := |runs| - 1;
      var front := runs[..n];
      PartitionFront(runs);
      RunPartitionUnique(Flatten(front), front);
      PartitionFrontEnd(runs);
      RunsAppendRun(Flatten(front), runs[n]);
      SplitLast(runs);
    }
  }

  lemma AppendSplit<T>(a: seq<T>, b: seq<T>)
    requires |b| > 0
    ensures a + b == (a + b[..|b| - 1]) + [b[|b| - 1]]
  {
  }

  lemma SplitLast<T>(s: seq<T>)
    requires |s| > 0
    ensures s[..|s| - 1] + [s[|s| - 1]] == s
  {
  }

  /** All pieces but the last are a partition of what they flatten to. */
  lemma PartitionFront(runs: seq<seq<Tagged>>)
    requires |runs| > 0 && IsRunPartition(Flatten(runs), runs)
    ensures IsRunPartition(Flatten(runs[..|runs| - 1]), runs[..|runs| - 1])
  {
    var front := runs[..|runs| - 1];
    forall q | 0 < q < |front|
      ensures DropsAt(front, q)
    {
      assert DropsAt(runs, q);
    }
  }

  /** The last piece starts strictly below the end of the ones before it. */
  lemma PartitionFrontEnd(runs: seq<seq<Tagged>>)
    requires |runs| > 0 && IsRunPartition(Flatten(runs), runs)
    ensures var ks := Flatten(runs[..|runs| - 1]);
            |ks| > 0 ==> runs[|runs| - 1][0].0 < ks[|ks| - 1].0
  {
    var n := |runs| - 1;
    var front := runs[..n];
    if n > 0 {
      assert DropsAt(runs, n);
      assert front[..n - 1] + [front[n - 1]] == front;
    }
  }

  /** The tagged elements of a concatenation are those of its parts. */
  lemma {:induction false} KnownAppend(index: map<string, nat>, a: seq<Element>, b: seq<Element>)
    ensures Known(index, a + b) == Known(index, a) + Known(index, b)
  {
    if |b| == 0 {
      assert a + b == a;
    } else {
      var n := |b| - 1;
      KnownAppend(index, a, b[..n]);
      assert (a + b)[..|a + b| - 1] == a + b[..n];
    }
  }

  /** A group holds exactly the names of its run ... */
  lemma {:induction false} GroupOfKeys(run: seq<Tagged>)
    ensures forall x :: x in GroupOf(run) <==> exists p :: 0 <= p < |run| && run[p].1.name == x
  {
    if |run| > 0 {
      var n := |run| - 1;
      GroupOfKeys(run[..n]);
      assert forall p :: 0 <= p < n ==> run[..n][p] == run[p];
    }
  }

  /** ... and under each name the LAST element of the run with that name. */
  lemma {:induction false} GroupOfLast(run: seq<Tagged>, p: nat)
    requires p < |run|
    requires forall j :: p < j < |run| ==> run[j].1.name != run[p].1.name
    ensures run[p].1.name in GroupOf(run) && GroupOf(run)[run[p].1.name] == run[p].1
  {
    var n := |run| - 1;
    if p < n {
      GroupOfLast(run[..n], p);
    }
  }

  /** How a scan state stands for the runs of the tagged elements seen so far: the finished
      groups are the groups of all runs but the last, the open group is the last run's, and
      prev is the index of the last tagged element; before any, the state is the start. */
  ghost predicate Simulates(st: ScanState, top: int, ks: seq<Tagged>) {
    var rs := Runs(ks);
    && (|rs| == 0 ==> st == ScanState([], None, top))
    && (|rs| > 0 ==> st == ScanState(GroupsOf(rs[..|rs| - 1]), Some(GroupOf(rs[|rs| - 1])),
                                     LastIndex(rs[|rs| - 1])))
  }

  /** One known element: the step of the scan and the step of the cut agree. */
  lemma {:induction false} StepSimulates(st: ScanState, top: int, ks: seq<Tagged>, k: Tagged)
    requires Simulates(st, top, ks)
    requires k.0 < top
    ensures Simulates(Step(map[k.1.name := k.0], st, k.1), top, ks + [k])
  {
    RunsShape(ks);
    var ks' := ks + [k];
    assert ks'[..|ks|] == ks;
    var rs := Runs(ks);
    var r := Runs(ks');
    if |rs| == 0 || k.0 < ks[|ks| - 1].0 {
      assert r[..|r| - 1] == rs;
      assert GroupOf([k]) == map[k.1.name := k.1] by {
        assert [k][..0] == [];
      }
      if |rs| > 0 {
        assert rs == rs[..|rs| - 1] + [rs[|rs| - 1]];
      }
    } else {
      var m := |rs| - 1;
      assert r[..m] == rs[..m];
      assert (rs[m] + [k])[..|rs[m]|] == rs[m];
    }
  }

  /** The scan from any start value above every index simulates the cut of the known elements. */
  lemma {:induction false} ScanSimulates(index: map<string, nat>, top: int, nodes: seq<Element>)
    requires forall x :: x in index ==> index[x] < top
    ensures Simulates(Scan(index, ScanState([], None, top), nodes), top, Known(index, nodes))
  {
    if |nodes| > 0 {
      var n := |nodes| - 1;
      ScanSimulates(index, top, nodes[..n]);
      var node := nodes[n];
      var st := Scan(index, ScanState([], None, top), nodes[..n]);
      if node.name in index {
        var k := (index[node.name], node);
        StepSimulates(st, top, Known(index, nodes[..n]), k);
        assert Step(index, st, node) == Step(map[node.name := k.0], st, node);
      }
    }
  }

  /** extractRepeats returns the groups of the runs: every group is non-empty, groups follow
      document order, and a new group starts exactly when the schema index drops. */
  lemma GroupsAreRuns(container: Element, f: FieldSet)
    ensures var ks := Known(FieldIndex(FieldList(f)), container.children);
            && IsRunPartition(ks, Runs(ks))
            && RepeatGroups(container, f) == GroupsOf(Runs(ks))
  {
    var fields := FieldList(f);
    var ks := Known(FieldIndex(fields), container.children);
    RunsPartition(ks);
    ScanSimulates(FieldIndex(fields), |fields|, container.children);
    var rs := Runs(ks);
    if |rs| > 0 {
      SplitLast(rs);
    }
  }

  /** Every group extractRepeats returns holds at least one element. */
  lemma GroupsNonEmpty(container: Element, f: FieldSet)
    ensures forall q :: 0 <= q < |RepeatGroups(container, f)| ==> |RepeatGroups(container, f)[q]| > 0
  {
    GroupsAreRuns(container, f);
    var ks := Known(FieldIndex(FieldList(f)), container.children);
    var rs := Runs(ks);
    forall q | 0 <= q < |rs|
      ensures |GroupOf(rs[q])| > 0
    {
      var run := rs[q];
      assert |run| > 0;
      assert run[|run| - 1].1.name in GroupOf(run);
    }
  }
}
