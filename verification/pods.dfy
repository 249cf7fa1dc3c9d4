/**
 * Pod listing and pod selection: the names are the first white-space
 * separated token of each line that `kubectl get pods --no-headers` prints,
 * and the user picks one of them by its 1-based number.
 */
module Pods {
  import opened Wrappers
  import opened Text
  import opened Selection

  /** Why a pod could not be obtained. */
  datatype PodError =
    | ListFailed        // the `kubectl get pods` command itself failed
    | InvalidSelection  // "invalid pod selection"

  /** The first field of each output line, in order. */
  function FirstFields(lines: seq<string>): (fields: seq<Option<string>>)
    ensures |fields| == |lines|
    ensures forall i :: 0 <= i < |lines| ==> fields[i] == FirstField(lines[i])
  {
    seq(|lines|, i requires 0 <= i < |lines| => FirstField(lines[i]))
  }

  /** The present fields, in order. */
  function Present(fields: seq<Option<string>>): (tokens: seq<string>)
    ensures |tokens| <= |fields|
    decreases |fields|
  {
    if fields == [] then []
    else
      var last := fields[|fields| - 1];
      Present(fields[..|fields| - 1]) + (if last.Some? then [last.value] else [])
  }

  /** The pod names found in the given output lines: the first field of each line that has one, in order. */
  function PodNames(lines: seq<string>): (pods: seq<string>)
    ensures |pods| <= |lines|
  {
    Present(FirstFields(lines))
  }

  lemma PresentLast(fields: seq<Option<string>>, field: Option<string>)
    ensures Present(fields + [field]) == Present(fields) + (if field.Some? then [field.value] else [])
  {
    assert (fields + [field])[..|fields|] == fields;
  }

  lemma {:induction false} PresentAppend(a: seq<Option<string>>, b: seq<Option<string>>)
    ensures Present(a + b) == Present(a) + Present(b)
    decreases |b|
  {
    if b == [] {
      assert a + b == a;
      assert Present(a) + [] == Present(a);
    } else {
      var init := b[..|b| - 1];
      var last := b[|b| - 1];
      assert b == init + [last];
      assert a + b == (a + init) + [last];
      PresentLast(a + init, last);
      PresentLast(init, last);
      PresentAppend(a, init);
    }
  }

  /** Every present value comes from one of the fields. */
  lemma {:induction false} PresentFromFields(fields: seq<Option<string>>)
    ensures forall k :: 0 <= k < |Present(fields)| ==> Some(Present(fields)[k]) in fields
    decreases |fields|
  {
    if fields != [] {
      var init := fields[..|fields| - 1];
      var last := fields[|fields| - 1];
      PresentFromFields(init);
      assert fields == init + [last];
      forall k | 0 <= k < |Present(fields)|
        ensures Some(Present(fields)[k]) in fields
      {
        if k < |Present(init)| {
          assert Some(Present(init)[k]) in init;
        }
      }
    }
  }

  lemma FirstFieldsAppend(a: seq<string>, b: seq<string>)
    ensures FirstFields(a + b) == FirstFields(a) + FirstFields(b)
  {
    assert forall i :: 0 <= i < |b| ==> (a + b)[|a| + i] == b[i];
  }

  /** Every listed name is a non-empty token without white space. */
  lemma PodNamesAreTokens(lines: seq<string>)
    ensures forall k :: 0 <= k < |PodNames(lines)| ==> PodNames(lines)[k] != [] && NoSpace(PodNames(lines)[k])
  {
    var fields := FirstFields(lines);
    PresentFromFields(fields);
    forall k | 0 <= k < |PodNames(lines)|
      ensures PodNames(lines)[k] != [] && NoSpace(PodNames(lines)[k])
    {
      var j :| 0 <= j < |fields| && fields[j] == Some(PodNames(lines)[k]);
      FirstFieldIsToken(lines[j]);
    }
  }

  /** Listing distributes over the output: the names of a block of lines follow those of the lines before it. */
  lemma PodNamesAppend(a: seq<string>, b: seq<string>)
    ensures PodNames(a + b) == PodNames(a) + PodNames(b)
  {
    FirstFieldsAppend(a, b);
    PresentAppend(FirstFields(a), FirstFields(b));
  }

  /** The names of a single line: its first field, if it has one. */
  lemma PodNamesSingle(line: string)
    ensures PodNames([line]) == if FirstField(line).Some? then [FirstField(line).value] else []
  {
    assert FirstFields([line]) == [] + [FirstField(line)];
    PresentLast([], FirstField(line));
  }

  /** A line contributes exactly its first token, or nothing when it is blank. */
  lemma LineContribution(pre: seq<string>, line: string, post: seq<string>)
    ensures AllSpace(line) ==> PodNames(pre + [line] + post) == PodNames(pre + post)
    ensures !AllSpace(line) ==> PodNames(pre + [line] + post) == PodNames(pre) + [FirstField(line).value] + PodNames(post)
  {
    var before, mid, after := PodNames(pre), PodNames([line]), PodNames(post);
    PodNamesAppend(pre + [line], post);
    PodNamesAppend(pre, [line]);
    PodNamesAppend(pre, post);
    assert PodNames(pre + [line] + post) == before + mid + after;
    PodNamesSingle(line);
    if AllSpace(line) {
      assert before + [] == before;
    }
  }

  /**
   * `getPods`: runs the listing (its captured output, or `None` when the
   * command fails) and collects the first token of every output line.
   */
  method GetPods(output: Option<string>) returns (r: Result<seq<string>, PodError>)
    ensures output.None? ==> r == Failure(ListFailed)
    ensures output.Some? ==> r == Success(PodNames(Split(output.value, '\n')))
  {
    if output.None? {
      return Failure(ListFailed);
    }
    var pods := ScanNames(Split(output.value, '\n'));
    return Success(pods);
  }

  /** The scanner loop of `getPods`: appends the first token of each line that has one. */
  method ScanNames(lines: seq<string>) returns (pods: seq<string>)
    ensures pods == PodNames(lines)
  {
    ghost var fields := FirstFields(lines);
    pods := [];
    var i := 0;
    while i < |lines|
      invariant 0 <= i <= |lines|
      invariant pods == Present(fields[..i])
    {
      var field := FirstField(lines[i]);
      assert fields[..i + 1] == fields[..i] + [field];
      PresentLast(fields[..i], field);
      if field.Some? {
        pods := pods + [field.value];
      } else {
        assert pods + [] == pods;
      }
      i := i + 1;
    }
    assert fields[..i] == fields;
  }

  /** `selectPod`: the pod numbered `choice`, or an error for a number outside `[1, len(pods)]`. */
  function SelectPod(pods: seq<string>, choice: int): (r: Result<string, PodError>)
    ensures r.Success? <==> 1 <= choice <= |pods|
    ensures r.Success? ==> r.value == pods[choice - 1]
    ensures r.Failure? ==> r.error == InvalidSelection
  {
    var picked := Pick(pods, choice);
    if picked.Some? then Success(picked.value) else Failure(InvalidSelection)
  }

  /** Every listed pod, and only a listed pod, can be selected; an empty list or a non-number never selects. */
  lemma SelectPodReachesEveryPod(pods: seq<string>, pod: string)
    ensures pod in pods <==> exists choice :: SelectPod(pods, choice) == Success(pod)
    ensures SelectPod(pods, 0) == Failure(InvalidSelection)
    ensures pods == [] ==> forall choice :: SelectPod(pods, choice) == Failure(InvalidSelection)
  {
    if pod in pods {
      var k :| 0 <= k < |pods| && pods[k] == pod;
      assert SelectPod(pods, k + 1) == Success(pod);
    } else {
      forall choice ensures SelectPod(pods, choice) != Success(pod) {
        assert Pick(pods, choice) != Some(pod);
      }
    }
  }
}
