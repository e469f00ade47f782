/**
 * The poll-creation form: the option editor (2 to 10 entries) and the submit
 * filter that keeps only non-blank options.
 */
module CreatePollForm {
  import opened Common
  import opened Text

  const MinOptions: nat := 2
  const MaxOptions: nat := 10

  datatype DraftOption = DraftOption(text: string)

  /** The form starts with two empty options. */
  function InitialOptions(): (opts: seq<DraftOption>)
    ensures |opts| == MinOptions
  {
    [DraftOption(""), DraftOption("")]
  }

  /** `addOption`: one empty option is appended while there are fewer than ten. */
  function AddOption(opts: seq<DraftOption>): (r: seq<DraftOption>)
    ensures |opts| < MaxOptions ==> r == opts + [DraftOption("")]
    ensures |opts| >= MaxOptions ==> r == opts
  {
    if |opts| < MaxOptions then opts + [DraftOption("")] else opts
  }

  /** `options.filter((_, i) => i !== index)`: every entry except the one at `index`. */
  function WithoutIndex(opts: seq<DraftOption>, index: int): (r: seq<DraftOption>)
    ensures 0 <= index < |opts| ==> |r| == |opts| - 1
    ensures !(0 <= index < |opts|) ==> r == opts
    ensures forall j :: 0 <= j < |opts| && j != index ==> r[if 0 <= index < j then j - 1 else j] == opts[j]
  {
    if 0 <= index < |opts| then opts[..index] + opts[index + 1..] else opts
  }

  /** `removeOption`: removes entry `index` only while more than two remain. */
  function RemoveOption(opts: seq<DraftOption>, index: int): (r: seq<DraftOption>)
    ensures |opts| > MinOptions ==> r == WithoutIndex(opts, index)
    ensures |opts| <= MinOptions ==> r == opts
  {
    if |opts| > MinOptions then WithoutIndex(opts, index) else opts
  }

  /** Option `index` with its text replaced. */
  function WithText(opts: seq<DraftOption>, index: nat, value: string): seq<DraftOption>
    requires index < |opts|
  {
    opts[index := DraftOption(value)]
  }

  /**
   * `handleOptionChange`: copies the list and assigns the new text at `index`;
   * the length and every other entry stay as they were.
   */
  method ChangeOptionText(options: seq<DraftOption>, index: nat, value: string) returns (newOptions: seq<DraftOption>)
    requires index < |options|
    ensures newOptions == WithText(options, index, value)
    ensures |newOptions| == |options| && newOptions[index].text == value
    ensures forall j :: 0 <= j < |options| && j != index ==> newOptions[j] == options[j]
  {
    var copy := new DraftOption[|options|](j requires 0 <= j < |options| => options[j]);
    copy[index] := copy[index].(text := value);
    newOptions := copy[..];
  }

  /** One user action on the option editor. */
  datatype Edit = Add | Remove(index: int) | Change(index: int, value: string)

  /**
   * The list after a run of edits, or `None` when a change names an index the
   * list does not have (the in-place assignment would throw).
   */
  function ApplyEdits(opts: seq<DraftOption>, edits: seq<Edit>): Option<seq<DraftOption>>
    decreases |edits|
  {
    if edits == [] then Some(opts)
    else match edits[0]
      case Add => ApplyEdits(AddOption(opts), edits[1..])
      case Remove(i) => ApplyEdits(RemoveOption(opts, i), edits[1..])
      case Change(i, v) =>
        if 0 <= i < |opts| then ApplyEdits(WithText(opts, i, v), edits[1..]) else None
  }

  /** Whatever the user does, the editor holds between two and ten options. */
  lemma {:induction false} EditsKeepOptionCountInBounds(opts: seq<DraftOption>, edits: seq<Edit>)
    requires MinOptions <= |opts| <= MaxOptions
    requires ApplyEdits(opts, edits).Some?
    ensures MinOptions <= |ApplyEdits(opts, edits).value| <= MaxOptions
    decreases |edits|
  {
    if edits != [] {
      match edits[0]
      case Add => EditsKeepOptionCountInBounds(AddOption(opts), edits[1..]);
      case Remove(i) => EditsKeepOptionCountInBounds(RemoveOption(opts, i), edits[1..]);
      case Change(i, v) => EditsKeepOptionCountInBounds(WithText(opts, i, v), edits[1..]);
    }
  }

  /** Starting from the initial form, the count stays within bounds. */
  lemma FromInitialFormInBounds(edits: seq<Edit>)
    requires ApplyEdits(InitialOptions(), edits).Some?
    ensures MinOptions <= |ApplyEdits(InitialOptions(), edits).value| <= MaxOptions
  {
    EditsKeepOptionCountInBounds(InitialOptions(), edits);
  }

  predicate IsFilled(o: DraftOption) {
    Trim(o.text) != ""
  }

  /** The options sent on submit: those whose trimmed text is not empty, in their order. */
  function FilledOptions(opts: seq<DraftOption>): (r: seq<DraftOption>)
    ensures forall o :: o in r <==> o in opts && !AllSpace(o.text)
    ensures forall o :: multiset(r)[o] == if IsFilled(o) then multiset(opts)[o] else 0
    ensures IsSubsequence(r, opts)
  {
    FilterIsSubsequence(opts, IsFilled);
    FilterCounts(opts, IsFilled);
    forall o | o in opts ensures IsFilled(o) <==> !AllSpace(o.text) {
      TrimEmptyIffBlank(o.text);
    }
    Filter(opts, IsFilled)
  }

  datatype CreateBody = CreateBody(title: string, options: seq<DraftOption>, isMultipleChoice: bool, isPublicResult: bool)

  /** `handleSubmit`: no request unless at least two options are filled in; the request carries only those. */
  function SubmitPoll(title: string, opts: seq<DraftOption>, isMultipleChoice: bool, isPublicResult: bool): (body: Option<CreateBody>)
    ensures body.None? <==> |FilledOptions(opts)| < MinOptions
    ensures body.Some? ==> body.value.options == FilledOptions(opts) && |body.value.options| >= MinOptions
    ensures body.Some? ==> body.value.title == title
  {
    var filtered := FilledOptions(opts);
    if |filtered| < MinOptions then None else Some(CreateBody(title, filtered, isMultipleChoice, isPublicResult))
  }
}
