/**
 * The state of the "New Chat" dialog: the chat name, the public switch and
 * the list of AI participants being configured, with the handlers that edit
 * the list and submit the form.
 */
module NewChatDialog {
  import opened Types

  /** One AI participant as the dialog edits it. */
  datatype Entry = Entry(name: string, provider: AIProvider, model: string)

  datatype Form = Form(chatName: string, isPublic: bool, aiParticipants: seq<Entry>)

  /** The configuration handed to `onCreateChat`. */
  datatype ChatConfig = ChatConfig(name: string, isPublic: bool, aiParticipants: seq<Entry>)

  /** The state the dialog starts in and returns to after a submit. */
  const Blank: Form := Form("", false, [])

  /** The entry "Add AI" appends. */
  const DefaultEntry: Entry := Entry("", OpenAI, "gpt-4")

  /** `addAIParticipant()`: appends the default entry. */
  function AddAIParticipant(f: Form): (r: Form)
    ensures |r.aiParticipants| == |f.aiParticipants| + 1
    ensures r.aiParticipants[..|f.aiParticipants|] == f.aiParticipants
    ensures r.aiParticipants[|f.aiParticipants|] == Entry("", OpenAI, "gpt-4")
    ensures r.chatName == f.chatName && r.isPublic == f.isPublic
  {
    f.(aiParticipants := f.aiParticipants + [DefaultEntry])
  }

  /** The three inputs of an entry; the provider select only offers the four providers. */
  datatype FieldUpdate = SetName(name: string) | SetProvider(provider: AIProvider) | SetModel(model: string)

  function ApplyField(e: Entry, u: FieldUpdate): Entry {
    match u
    case SetName(v) => e.(name := v)
    case SetProvider(v) => e.(provider := v)
    case SetModel(v) => e.(model := v)
  }

  /** `updateAIParticipant(index, field, value)` for an index the dialog renders. */
  function UpdateAIParticipant(f: Form, index: int, u: FieldUpdate): (r: Form)
    requires 0 <= index < |f.aiParticipants|
    ensures |r.aiParticipants| == |f.aiParticipants|
    ensures forall i :: 0 <= i < |f.aiParticipants| && i != index ==> r.aiParticipants[i] == f.aiParticipants[i]
    ensures var before := f.aiParticipants[index];
      var after := r.aiParticipants[index];
      match u
      case SetName(v) => after == Entry(v, before.provider, before.model)
      case SetProvider(v) => after == Entry(before.name, v, before.model)
      case SetModel(v) => after == Entry(before.name, before.provider, v)
    ensures r.chatName == f.chatName && r.isPublic == f.isPublic
  {
    f.(aiParticipants := f.aiParticipants[index := ApplyField(f.aiParticipants[index], u)])
  }

  /** `list.filter((_, i) => i !== index)`. */
  function RemoveIndex(s: seq<Entry>, index: int): (r: seq<Entry>)
    ensures 0 <= index < |s| ==> |r| == |s| - 1
    ensures !(0 <= index < |s|) ==> r == s
  {
    if |s| == 0 then []
    else if index == 0 then s[1..]
    else [s[0]] + RemoveIndex(s[1..], index - 1)
  }

  /** Removing at an index keeps the entries before it and shifts those after it down by one. */
  lemma {:induction false} RemoveIndexShifts(s: seq<Entry>, index: int)
    requires 0 <= index < |s|
    ensures RemoveIndex(s, index) == s[..index] + s[index + 1..]
  {
    if index > 0 {
      RemoveIndexShifts(s[1..], index - 1);
      assert s[1..][..index - 1] == s[1..index];
      assert s[1..][index..] == s[index + 1..];
      assert s[..index] == [s[0]] + s[1..index];
    }
  }

  /** `removeAIParticipant(index)`. */
  function RemoveAIParticipant(f: Form, index: int): (r: Form)
    ensures 0 <= index < |f.aiParticipants| ==>
      r.aiParticipants == f.aiParticipants[..index] + f.aiParticipants[index + 1..]
    ensures !(0 <= index < |f.aiParticipants|) ==> r == f
    ensures r.chatName == f.chatName && r.isPublic == f.isPublic
  {
    if 0 <= index < |f.aiParticipants| then
      RemoveIndexShifts(f.aiParticipants, index);
      f.(aiParticipants := RemoveIndex(f.aiParticipants, index))
    else f.(aiParticipants := RemoveIndex(f.aiParticipants, index))
  }

  /** Removing the entry just added restores the list. */
  lemma AddThenRemove(f: Form)
    ensures RemoveAIParticipant(AddAIParticipant(f), |f.aiParticipants|) == f
  {
    var g := AddAIParticipant(f);
    assert g.aiParticipants[..|f.aiParticipants|] == f.aiParticipants;
    assert g.aiParticipants[|f.aiParticipants| + 1..] == [];
  }

  /** The dialog's calls to its parent, which owns whether the dialog is open. */
  datatype ParentCall = OnCreateChat(config: ChatConfig) | OnClose

  /**
   * `handleSubmit`: hands the current values to `onCreateChat`, resets the form
   * and then asks the parent to close the dialog with `onClose`.
   */
  function HandleSubmit(f: Form): (r: (seq<ParentCall>, Form))
    ensures r.0 == [OnCreateChat(ChatConfig(f.chatName, f.isPublic, f.aiParticipants)), OnClose]
    ensures r.1 == Form("", false, [])
  {
    ([OnCreateChat(ChatConfig(f.chatName, f.isPublic, f.aiParticipants)), OnClose], Blank)
  }

  /** The `required` inputs: the chat name and every AI participant's name and model. */
  predicate RequiredFilled(f: Form) {
    f.chatName != "" &&
    forall i :: 0 <= i < |f.aiParticipants| ==>
      f.aiParticipants[i].name != "" && f.aiParticipants[i].model != ""
  }

  datatype SubmitResult = Submitted(calls: seq<ParentCall>, form: Form) | Blocked

  /**
   * Submitting the form: the browser runs `handleSubmit` only when every
   * `required` input is non-empty, otherwise the form stays as it is.
   */
  function SubmitForm(f: Form): (r: SubmitResult)
    ensures r.Submitted? <==> RequiredFilled(f)
    ensures r.Submitted? ==>
      && |r.calls| == 2 && r.calls[0].OnCreateChat? && r.calls[1] == OnClose
      && r.calls[0].config.name != "" && r.calls[0].config.name == f.chatName
      && r.form == Blank
  {
    if RequiredFilled(f) then
      var (calls, g) := HandleSubmit(f);
      Submitted(calls, g)
    else Blocked
  }

  /** A freshly added AI entry has an empty name, so it must be named before the form submits. */
  lemma NewEntryBlocksSubmit(f: Form)
    ensures SubmitForm(AddAIParticipant(f)).Blocked?
  {
    var g := AddAIParticipant(f);
    assert g.aiParticipants[|f.aiParticipants|].name == "";
  }

  /** After a submit the form is blank, so submitting again cannot create a second chat. */
  lemma SubmitTwiceCreatesOnce(f: Form)
    requires RequiredFilled(f)
    ensures var r := SubmitForm(f);
      r.Submitted? && SubmitForm(r.form).Blocked?
  {
  }

  /** Whether two updates set the same input of an entry. */
  predicate SameField(u: FieldUpdate, v: FieldUpdate) {
    (u.SetName? && v.SetName?) || (u.SetProvider? && v.SetProvider?) || (u.SetModel? && v.SetModel?)
  }

  /** Of two edits of the same input of the same entry, the later one wins. */
  lemma UpdateSameFieldLastWins(f: Form, index: int, u: FieldUpdate, v: FieldUpdate)
    requires 0 <= index < |f.aiParticipants| && SameField(u, v)
    ensures UpdateAIParticipant(UpdateAIParticipant(f, index, u), index, v) == UpdateAIParticipant(f, index, v)
  {
    var g := UpdateAIParticipant(f, index, u);
    var h := UpdateAIParticipant(g, index, v);
    var h' := UpdateAIParticipant(f, index, v);
    assert h.aiParticipants == h'.aiParticipants;
  }

  /** An edited entry reaches `onCreateChat` with the edit applied and every other entry as it was. */
  lemma UpdateThenSubmit(f: Form, index: int, u: FieldUpdate)
    requires 0 <= index < |f.aiParticipants|
    ensures var calls := HandleSubmit(UpdateAIParticipant(f, index, u)).0;
      var sent := calls[0].config.aiParticipants;
      && |sent| == |f.aiParticipants|
      && sent[index] == ApplyField(f.aiParticipants[index], u)
      && (forall i :: 0 <= i < |sent| && i != index ==> sent[i] == f.aiParticipants[i])
  {
  }
}
