/** The logic inside the meeting-notes page (app/dashboard/meetings/page.tsx):
    the length guard before extraction, the list of extracted action items
    with its per-item toggle and edit, and the request that turns the
    selected items into tasks. The page's React state is a value here;
    each handler maps the old state to the new one or to the request it
    sends. */
module MeetingsPage {
  import opened Wrappers
  import opened Strings
  import opened Json
  import opened Validations

  /** An action item as the extraction returned it. */
  datatype ExtractedItem = ExtractedItem(title: string, description: string, priority: string,
                                         suggestedDueDate: Option<string>)

  /** An action item on the page: the extracted fields and the checkbox. */
  datatype ActionItem = ActionItem(title: string, description: string, priority: string,
                                   suggestedDueDate: Option<string>, included: bool)

  /** The fields the page's inputs edit. */
  datatype Field = Title | Description | PriorityChoice

  function FieldValue(item: ActionItem, field: Field): string
  {
    match field
    case Title => item.title
    case Description => item.description
    case PriorityChoice => item.priority
  }

  /** The page's state. */
  datatype PageState = PageState(transcript: string, transcriptId: Option<string>, summary: string,
                                 items: seq<ActionItem>, error: string, success: string)

  // ─── Extraction ───────────────────────────────────────

  const TranscriptTooShort: string := "Transcript must be at least 10 characters"

  datatype ExtractStep = ExtractRefused(message: string) | SendTranscript(transcript: string)

  /** `handleExtract`'s guard: a transcript that trims to fewer than ten
      characters is refused, and otherwise the trimmed text is sent. */
  function HandleExtract(transcript: string): (step: ExtractStep)
    ensures step.ExtractRefused? ==> step.message == TranscriptTooShort
    ensures step.SendTranscript? ==> step.transcript == Trim(transcript) && |step.transcript| >= 10
  {
    if |Trim(transcript)| < 10 then ExtractRefused(TranscriptTooShort) else SendTranscript(Trim(transcript))
  }

  /** The page refuses exactly the transcripts whose trimmed text is
      shorter than ten characters, and what it sends is already trimmed. */
  lemma ExtractGuard(transcript: string)
    ensures HandleExtract(transcript).ExtractRefused? <==> |Trim(transcript)| < 10
    ensures var step := HandleExtract(transcript);
      step.SendTranscript? ==> |step.transcript| >= 10 && Trim(step.transcript) == step.transcript
  {
    TrimIdempotent(transcript);
  }

  /** What the page sends is what the extraction validator keeps: a sent
      transcript within the upper bound is accepted unchanged. */
  lemma ExtractRequestAccepted(transcript: string, f: Formats)
    requires |Trim(transcript)| <= 50000
    ensures var step := HandleExtract(transcript);
      step.SendTranscript? ==>
        ExtractTranscriptSchema(JObj(map["transcript" := JStr(step.transcript)]), f) == Valid(step.transcript)
  {
    TrimIdempotent(transcript);
    TranscriptField(Trim(transcript), f);
  }

  /** Freshly extracted items are all ticked. */
  function Fresh(extracted: seq<ExtractedItem>): (items: seq<ActionItem>)
    ensures |items| == |extracted|
    ensures forall i :: 0 <= i < |items| ==> items[i].included
  {
    seq(|extracted|, i requires 0 <= i < |extracted| =>
      var e := extracted[i];
      ActionItem(e.title, e.description, e.priority, e.suggestedDueDate, true))
  }

  /** The state after a successful extraction. */
  function Extracted(st: PageState, transcriptId: string, summary: string, extracted: seq<ExtractedItem>): (r: PageState)
    ensures r.transcript == st.transcript
    ensures r.transcriptId == Some(transcriptId) && r.summary == summary
    ensures r.items == Fresh(extracted) && |r.items| == |extracted|
    ensures r.error == "" && r.success == ""
  {
    st.(transcriptId := Some(transcriptId), summary := summary, items := Fresh(extracted), error := "", success := "")
  }

  // ─── Editing the list ─────────────────────────────────

  /** `toggleItem(index)`: the item at `index` flips its checkbox; an index
      outside the list changes nothing. */
  function Toggle(items: seq<ActionItem>, index: int): (r: seq<ActionItem>)
    ensures |r| == |items|
    ensures forall i :: 0 <= i < |r| ==>
      r[i].(included := items[i].included) == items[i] && (r[i].included != items[i].included <==> i == index)
  {
    seq(|items|, i requires 0 <= i < |items| =>
      if i == index then items[i].(included := !items[i].included) else items[i])
  }

  /** Toggling the same item twice restores the list. */
  lemma ToggleTwice(items: seq<ActionItem>, index: int)
    ensures Toggle(Toggle(items, index), index) == items
  {
  }

  /** `updateItem(index, field, value)`: only that field of that item
      changes. */
  function Update(items: seq<ActionItem>, index: int, field: Field, value: string): (r: seq<ActionItem>)
    ensures |r| == |items|
    ensures forall i :: 0 <= i < |r| && i != index ==> r[i] == items[i]
    ensures 0 <= index < |r| ==>
      FieldValue(r[index], field) == value && r[index].included == items[index].included &&
      r[index].suggestedDueDate == items[index].suggestedDueDate &&
      forall g :: g != field ==> FieldValue(r[index], g) == FieldValue(items[index], g)
  {
    seq(|items|, i requires 0 <= i < |items| =>
      if i != index then items[i]
      else match field
        case Title => items[i].(title := value)
        case Description => items[i].(description := value)
        case PriorityChoice => items[i].(priority := value))
  }

  /** Writing back a field's current value changes nothing. */
  lemma UpdateUnchanged(items: seq<ActionItem>, index: int, field: Field)
    requires 0 <= index < |items|
    ensures Update(items, index, field, FieldValue(items[index], field)) == items
  {
  }

  /** The ticked items, in their order. */
  function Selected(items: seq<ActionItem>): (r: seq<ActionItem>)
    ensures |r| <= |items|
    ensures forall x :: x in r <==> x in items && x.included
    decreases |items|
  {
    if items == [] then []
    else if items[0].included then [items[0]] + Selected(items[1..])
    else Selected(items[1..])
  }

  /** Selection works piece by piece, so the order is kept. */
  lemma {:induction false} SelectedSplits(a: seq<ActionItem>, b: seq<ActionItem>)
    ensures Selected(a + b) == Selected(a) + Selected(b)
    decreases |a|
  {
    if a == [] {
      assert a + b == b;
    } else {
      assert (a + b)[1..] == a[1..] + b;
      SelectedSplits(a[1..], b);
    }
  }

  /** A list whose every item is ticked is selected whole. */
  lemma {:induction false} AllTickedAllSelected(items: seq<ActionItem>)
    requires forall i :: 0 <= i < |items| ==> items[i].included
    ensures Selected(items) == items
    decreases |items|
  {
    if items != [] {
      AllTickedAllSelected(items[1..]);
    }
  }

  // ─── Confirmation ─────────────────────────────────────

  /** One action item of the confirmation request: the suggested due date
      is sent as `dueDate` and the checkbox is dropped. */
  datatype SubmittedItem = SubmittedItem(title: string, description: string, priority: string, dueDate: Option<string>)

  function ToSubmitted(item: ActionItem): SubmittedItem
  {
    SubmittedItem(item.title, item.description, item.priority, item.suggestedDueDate)
  }

  datatype ConfirmStep = Ignored | ConfirmRefused(message: string) | Submit(transcriptId: string, actionItems: seq<SubmittedItem>)

  const NothingSelected: string := "Select at least one action item to create"

  /** `handleConfirm`: nothing happens without a transcript id, an error is
      shown when no item is ticked, and otherwise the ticked items are
      sent. */
  function HandleConfirm(st: PageState): (step: ConfirmStep)
    ensures step.ConfirmRefused? ==> step.message == NothingSelected
    ensures step.Submit? ==>
      Some(step.transcriptId) == st.transcriptId && step.transcriptId != "" &&
      1 <= |step.actionItems| <= |st.items|
  {
    if st.transcriptId.None? || st.transcriptId.value == "" then Ignored
    else
      var selected := Selected(st.items);
      if |selected| == 0 then ConfirmRefused(NothingSelected)
      else Submit(st.transcriptId.value, seq(|selected|, i requires 0 <= i < |selected| => ToSubmitted(selected[i])))
  }

  /** The request carries exactly the ticked items, in order, and is sent
      exactly when there is a transcript id and at least one ticked item. */
  lemma ConfirmSendsSelection(st: PageState)
    ensures HandleConfirm(st).Ignored? <==> st.transcriptId.None? || st.transcriptId.value == ""
    ensures HandleConfirm(st).Submit? <==>
      st.transcriptId.Some? && st.transcriptId.value != "" && exists i :: 0 <= i < |st.items| && st.items[i].included
    ensures var step := HandleConfirm(st);
      step.Submit? ==>
        step.transcriptId == st.transcriptId.value &&
        |step.actionItems| == |Selected(st.items)| &&
        forall i :: 0 <= i < |step.actionItems| ==> step.actionItems[i] == ToSubmitted(Selected(st.items)[i])
  {
    var sel := Selected(st.items);
    if exists i :: 0 <= i < |st.items| && st.items[i].included {
      var i :| 0 <= i < |st.items| && st.items[i].included;
      assert st.items[i] in sel;
    }
    if |sel| > 0 {
      assert sel[0] in sel;
    }
  }

  /** Right after an extraction every extracted item is submitted. */
  lemma ExtractThenConfirm(st: PageState, transcriptId: string, summary: string, extracted: seq<ExtractedItem>)
    requires transcriptId != "" && extracted != []
    ensures var step := HandleConfirm(Extracted(st, transcriptId, summary, extracted));
      step == Submit(transcriptId, seq(|extracted|, i requires 0 <= i < |extracted| =>
        SubmittedItem(extracted[i].title, extracted[i].description, extracted[i].priority, extracted[i].suggestedDueDate)))
  {
    AllTickedAllSelected(Fresh(extracted));
  }

  const CreatedSuffix: string := " tasks created successfully! View them on the Dashboard."

  /** The success line: the number of tasks the server reports, or the
      number sent when that is missing or zero, followed by the fixed text. */
  function ConfirmedMessage(reported: Option<nat>, sent: nat): (msg: string)
    ensures |msg| > |CreatedSuffix| && msg[|msg| - |CreatedSuffix|..] == CreatedSuffix
    ensures var count := if reported.Some? && reported.value != 0 then reported.value else sent;
      msg[..|msg| - |CreatedSuffix|] == NatToString(count)
  {
    NatToString(if reported.Some? && reported.value != 0 then reported.value else sent) + CreatedSuffix
  }

  /** The state after a successful confirmation: the error shown before the
      request is cleared, the transcript, its id, the summary and the items
      are cleared, and the success line reports the tasks created. */
  function Confirmed(st: PageState, reported: Option<nat>): (r: PageState)
    ensures r.transcript == "" && r.transcriptId.None? && r.summary == "" && r.items == []
    ensures r.error == ""
    ensures r.success == ConfirmedMessage(reported, |Selected(st.items)|)
  {
    PageState("", None, "", [], "", ConfirmedMessage(reported, |Selected(st.items)|))
  }

  /** `handleReset`: back to the empty page. */
  function Reset(st: PageState): (r: PageState)
    ensures r.transcript == "" && r.transcriptId.None? && r.summary == "" && r.items == []
    ensures r.error == "" && r.success == ""
  {
    PageState("", None, "", [], "", "")
  }

  /** After a confirmation or a reset a second confirm does nothing, and
      extracting needs a new transcript. */
  lemma NoSecondSubmit(st: PageState, reported: Option<nat>)
    ensures HandleConfirm(Confirmed(st, reported)) == Ignored
    ensures HandleConfirm(Reset(st)) == Ignored
    ensures HandleExtract(Confirmed(st, reported).transcript) == ExtractRefused(TranscriptTooShort)
  {
    assert Trim("") == "";
  }
}
