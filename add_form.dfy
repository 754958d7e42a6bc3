/**
 * The AcFun download page's "add to queue" form: the table of video kinds and the handler
 * that parses a video and queues it with its projected representations.
 */
module AddForm {
  import opened Wrappers

  /** A video kind of the select box. */
  datatype AcfunVideoTypesItem = AcfunVideoTypesItem(value: string, labelText: string)

  /** The kinds offered: videos and bangumi. */
  const AcfunVideoTypes: seq<AcfunVideoTypesItem> := [
    AcfunVideoTypesItem("ac", "视频（ac）"),
    AcfunVideoTypesItem("aa", "番剧（aa）")
  ]

  /** No later item of `items` has the value of item `i`. */
  ghost predicate LastWithValue(items: seq<AcfunVideoTypesItem>, i: int, k: int)
    requires 0 <= i < k <= |items|
  {
    forall j :: i < j < k ==> items[j].value != items[i].value
  }

  /**
   * The `reduce` that writes each item's label under its value: every value gets a key,
   * and a value listed more than once keeps the label of its last item.
   */
  method TypesMap(items: seq<AcfunVideoTypesItem>) returns (result: map<string, string>)
    ensures result.Keys == set i | 0 <= i < |items| :: items[i].value
    ensures forall i :: 0 <= i < |items| && LastWithValue(items, i, |items|) ==>
      result[items[i].value] == items[i].labelText
  {
    result := map[];
    for k := 0 to |items|
      invariant result.Keys == set i | 0 <= i < k :: items[i].value
      invariant forall i :: 0 <= i < k && LastWithValue(items, i, k) ==>
        result[items[i].value] == items[i].labelText
    {
      result := result[items[k].value := items[k].labelText];
    }
  }

  /** `acfunVideoTypesMap`: each kind's value to its label. */
  method AcfunVideoTypesMap() returns (m: map<string, string>)
    ensures m == map["ac" := "视频（ac）", "aa" := "番剧（aa）"]
  {
    m := TypesMap(AcfunVideoTypes);
    assert LastWithValue(AcfunVideoTypes, 0, 2) && LastWithValue(AcfunVideoTypes, 1, 2);
    assert m["ac"] == "视频（ac）" && m["aa"] == "番剧（aa）";
    assert m.Keys == {"ac", "aa"};
  }

  // ---------------------------------------------------------------------------
  // Representations

  /**
   * One quality of a parsed video: the three fields the queue keeps and whatever else the
   * parser returned, as named fields.
   */
  datatype Representation =
    Representation(m3u8Slice: string, url: string, qualityLabel: string, extra: map<string, string>)

  /** The object literal built for one representation: the three fields only. */
  function Project(o: Representation): Representation
  {
    Representation(o.m3u8Slice, o.url, o.qualityLabel, map[])
  }

  /** `representation.map(...)`: the same qualities in the same order, each projected. */
  function ProjectAll(rs: seq<Representation>): (out: seq<Representation>)
    ensures |out| == |rs|
    ensures forall i :: 0 <= i < |rs| ==>
      && out[i].m3u8Slice == rs[i].m3u8Slice
      && out[i].url == rs[i].url
      && out[i].qualityLabel == rs[i].qualityLabel
      && out[i].extra == map[]
  {
    if rs == [] then [] else [Project(rs[0])] + ProjectAll(rs[1..])
  }

  /** Projecting twice is projecting once. */
  lemma ProjectAllIdempotent(rs: seq<Representation>)
    ensures ProjectAll(ProjectAll(rs)) == ProjectAll(rs)
  {
    var p := ProjectAll(rs);
    var q := ProjectAll(p);
    assert forall i :: 0 <= i < |q| ==> q[i] == p[i];
  }

  /** Representations that already carry only the three fields pass through unchanged. */
  lemma ProjectAllFixed(rs: seq<Representation>)
    requires forall i :: 0 <= i < |rs| ==> rs[i].extra == map[]
    ensures ProjectAll(rs) == rs
  {
    var p := ProjectAll(rs);
    assert forall i :: 0 <= i < |p| ==> p[i] == rs[i];
  }

  // ---------------------------------------------------------------------------
  // The handler

  /** The validated form: the video kind and its id. */
  datatype FormValue = FormValue(kind: string, id: string)

  /** A queued download. */
  datatype DownloadItem = DownloadItem(qid: string, kind: string, id: string, representation: seq<Representation>)

  /** The messages the form shows. */
  datatype Notice = NoMediaAddress | ParseFailed

  /** What parsing the video gave: its representations (None when there are none), or a throw. */
  datatype ParseOutcome = Parsed(representation: Option<seq<Representation>>) | Threw

  /** The handler's steps, in the order they happen: setting the loading flag, and parse requests. */
  datatype Step = SetLoadingTo(value: bool) | ParseRequest(form: FormValue)

  /** The form's state and the part of the store it writes. */
  class AddFormState {
    var visible: bool
    var loading: bool
    /** Every `setLoading` call and every parse request, in order. */
    var steps: seq<Step>
    var downloadList: seq<DownloadItem>
    var notices: seq<Notice>

    constructor ()
      ensures !visible && !loading && steps == []
      ensures downloadList == [] && notices == []
    {
      visible, loading, steps := false, false, [];
      downloadList, notices := [], [];
    }

    method SetLoading(value: bool)
      modifies this
      ensures loading == value && steps == old(steps) + [SetLoadingTo(value)]
      ensures visible == old(visible)
      ensures downloadList == old(downloadList) && notices == old(notices)
    {
      loading := value;
      steps := steps + [SetLoadingTo(value)];
    }

    /**
     * `handleAddDownloadQueueClick` over its collaborators' answers: the validated form
     * (None when validation fails), what parsing gave, and the fresh queue id.
     */
    method HandleAddDownloadQueueClick(formValue: Option<FormValue>, outcome: ParseOutcome, qid: string)
      modifies this
      // validation failed: no parse, no loading, nothing at all
      ensures formValue.None? ==> unchanged(this)
      // otherwise one parse, after the loading flag is set and before it is cleared
      ensures formValue.Some? ==>
        && steps == old(steps) + [SetLoadingTo(true), ParseRequest(formValue.value), SetLoadingTo(false)]
        && !loading
      // representations found: queued with the three fields only, and the modal closes
      ensures formValue.Some? && outcome.Parsed? && outcome.representation.Some? ==>
        && downloadList == old(downloadList) +
             [DownloadItem(qid, formValue.value.kind, formValue.value.id,
                           ProjectAll(outcome.representation.value))]
        && !visible && notices == old(notices)
      // none found: a warning, no queue entry, and the modal stays as it was
      ensures formValue.Some? && outcome.Parsed? && outcome.representation.None? ==>
        downloadList == old(downloadList) && visible == old(visible) &&
        notices == old(notices) + [NoMediaAddress]
      // the parse threw: the error message, no queue entry
      ensures formValue.Some? && outcome.Threw? ==>
        downloadList == old(downloadList) && visible == old(visible) &&
        notices == old(notices) + [ParseFailed]
    {
      if formValue.None? {
        return;
      }
      var value := formValue.value;
      SetLoading(true);
      steps := steps + [ParseRequest(value)];
      match outcome {
        case Parsed(Some(representation)) =>
          downloadList := downloadList + [DownloadItem(qid, value.kind, value.id, ProjectAll(representation))];
          visible := false;
        case Parsed(None) =>
          notices := notices + [NoMediaAddress];
        case Threw =>
          notices := notices + [ParseFailed];
      }
      SetLoading(false);
    }
  }
}
