/** The agent form (frontend/src/components/features/agent/AgentForm.tsx):
    initial field values, the validation and payload of `handleSubmit`,
    and what happens after `onSubmit` settles.

    The form checks the JavaScript length of the untrimmed prompt but
    submits the trimmed prompt, while the server's `AgentCreate`
    (backend/app/models/agent.py) requires a prompt of at least ten
    characters; `AgentUpdate`, used on the edit page, has no such
    constraint. The form and its component run the check as written;
    a corrected check of the trimmed prompt, counted in characters as
    the server counts them, is modelled beside it (`Validate`,
    `SubmitCorrected`). */
module AgentForm {
  import opened Wrappers
  import opened Text

  const DefaultModel: string := "claude-sonnet-4-20250514"

  /** The `value`s of `MODELS`, in menu order. */
  const Models: seq<string> := ["claude-sonnet-4-20250514", "claude-3-5-sonnet-20241022", "claude-3-5-haiku-20241022"]

  const NameRequired: string := "이름을 입력해주세요"
  const PromptTooShort: string := "시스템 프롬프트는 최소 10자 이상이어야 합니다"
  const SaveFailed: string := "Failed to save agent"
  const AgentsPath: string := "/agents"

  /** The fields of the edited agent that the form reads. */
  datatype Agent = Agent(name: string, description: Option<string>, prompt: string, model: Option<string>)

  /** The four controlled fields. */
  datatype Fields = Fields(name: string, description: string, prompt: string, model: string)

  /** The object handed to `onSubmit`; an absent description is
      `undefined`. */
  datatype Payload = Payload(name: string, description: Option<string>, prompt: string, model: string)

  /** `useState(agent?.x || ...)`: an empty string counts as missing, and
      the model falls back to the default model. */
  function InitialFields(agent: Option<Agent>): (r: Fields)
    ensures agent.None? ==> r == Fields([], [], [], DefaultModel)
    ensures agent.Some? ==> r.name == agent.value.name && r.prompt == agent.value.prompt
    ensures agent.Some? && agent.value.description.Some? ==> r.description == agent.value.description.value
    ensures agent.Some? && agent.value.description.None? ==> r.description == []
    ensures r.model != []
    ensures agent.Some? && agent.value.model.Some? && agent.value.model.value != [] ==>
      r.model == agent.value.model.value
    ensures agent.Some? && (agent.value.model.None? || agent.value.model.value == []) ==>
      r.model == DefaultModel
  {
    match agent
    case None => Fields([], [], [], DefaultModel)
    case Some(a) =>
      Fields(a.name,
             if a.description.Some? then a.description.value else [],
             a.prompt,
             if a.model.Some? && a.model.value != [] then a.model.value else DefaultModel)
  }

  /** The payload built from valid fields. */
  function PayloadOf(f: Fields): (p: Payload)
    ensures p.name == Trim(f.name) && p.prompt == Trim(f.prompt) && p.model == f.model
    ensures p.description.None? <==> Trim(f.description) == []
    ensures p.description.Some? ==> p.description.value == Trim(f.description)
  {
    var d := Trim(f.description);
    Payload(Trim(f.name), if d == [] then None else Some(d), Trim(f.prompt), f.model)
  }

  /** The validation as written: the trimmed name must not be empty, then
      the untrimmed prompt must be at least ten UTF-16 code units long. */
  function ValidateAsWritten(f: Fields): (r: Result<Payload, string>)
    ensures r.Ok? <==> Trim(f.name) != [] && Utf16Length(f.prompt) >= 10
    ensures Trim(f.name) == [] ==> r == Err(NameRequired)
    ensures Trim(f.name) != [] && Utf16Length(f.prompt) < 10 ==> r == Err(PromptTooShort)
    ensures r.Ok? ==> r.value == PayloadOf(f)
  {
    if Trim(f.name) == [] then Err(NameRequired)
    else if Utf16Length(f.prompt) < 10 then Err(PromptTooShort)
    else Ok(PayloadOf(f))
  }

  /** The prompt constraint of the server's `AgentCreate`: at least ten
      characters, counted as Python counts them (code points). */
  predicate ServerAcceptsPrompt(p: Payload)
  {
    |p.prompt| >= 10
  }

  /** As written, a prompt padded with blanks passes the check and is
      submitted too short: nine spaces and `x` give the prompt `x`. */
  lemma PaddedPromptPassesAsWritten(f: Fields)
    requires Trim(f.name) != []
    requires |f.prompt| == 10 && forall i :: 0 <= i < 9 ==> f.prompt[i] == ' '
    requires f.prompt[9] as int < 128 && !IsJsWhitespace(f.prompt[9])
    ensures ValidateAsWritten(f).Ok?
    ensures !ServerAcceptsPrompt(ValidateAsWritten(f).value)
  {
    PaddedLength(f.prompt);
    PaddedTrim(f.prompt);
  }

  lemma PaddedLength(p: string)
    requires |p| == 10 && p[9] as int < 128
    requires forall i :: 0 <= i < 9 ==> p[i] == ' '
    ensures Utf16Length(p) >= 10
  {
    assert forall i :: 0 <= i < |p| ==> p[i] as int <= 0xFFFF;
    Utf16LengthBmp(p);
  }

  lemma PaddedTrim(p: string)
    requires |p| == 10 && forall i :: 0 <= i < 9 ==> p[i] == ' '
    ensures |Trim(p)| < 10
  {
    assert forall i :: 0 <= i < |p| - 1 ==> IsJsWhitespace(p[i]);
    TrimOfPadded(p);
  }

  /** Every character but the last is a blank, so at most the last one
      survives the trim. */
  lemma TrimOfPadded(s: string)
    requires |s| >= 1 && forall i :: 0 <= i < |s| - 1 ==> IsJsWhitespace(s[i])
    ensures |Trim(s)| <= 1
  {
  }

  /** The corrected validation: the prompt's length is checked after
      trimming, as the server counts it; the name check and the messages
      are unchanged. */
  function Validate(f: Fields): (r: Result<Payload, string>)
    ensures r.Ok? <==> Trim(f.name) != [] && |Trim(f.prompt)| >= 10
    ensures Trim(f.name) == [] ==> r == Err(NameRequired)
    ensures Trim(f.name) != [] && |Trim(f.prompt)| < 10 ==> r == Err(PromptTooShort)
    ensures r.Ok? ==> r.value == PayloadOf(f)
  {
    if Trim(f.name) == [] then Err(NameRequired)
    else if |Trim(f.prompt)| < 10 then Err(PromptTooShort)
    else Ok(PayloadOf(f))
  }

  /** Every payload the corrected form submits meets the server's prompt
      constraint and has a non-empty name without surrounding blanks. */
  lemma ValidatedPayloadAccepted(f: Fields)
    requires Validate(f).Ok?
    ensures ServerAcceptsPrompt(Validate(f).value)
    ensures |Validate(f).value.name| >= 1
    ensures Trim(Validate(f).value.name) == Validate(f).value.name
  {
    TrimIdempotent(f.name);
  }

  /** Trimming twice is trimming once. */
  lemma TrimIdempotent(s: string)
    ensures Trim(Trim(s)) == Trim(s)
  {
    var r := Trim(s);
    if r != [] {
      assert TrimStart(r) == r;
      assert TrimEnd(r) == r;
    }
  }

  /** The two validations agree whenever the prompt has no surrounding
      blanks and no character outside the Basic Multilingual Plane. */
  lemma ValidationsAgree(f: Fields)
    requires Trim(f.prompt) == f.prompt
    requires forall i :: 0 <= i < |f.prompt| ==> f.prompt[i] as int <= 0xFFFF
    ensures Validate(f) == ValidateAsWritten(f)
  {
    Utf16LengthBmp(f.prompt);
  }

  lemma {:induction false} Utf16LengthBmp(s: string)
    requires forall i :: 0 <= i < |s| ==> s[i] as int <= 0xFFFF
    ensures Utf16Length(s) == |s|
  {
    if s != [] {
      Utf16LengthBmp(s[1..]);
    }
  }

  /** How the promise returned by `onSubmit` settles: resolved, rejected
      with an `Error` and its message, or rejected with anything else. */
  datatype SaveOutcome = Saved | RejectedWithError(message: string) | RejectedOther

  /** The form's state: its fields, the shown error, and where the router
      has been sent. */
  datatype FormState = FormState(fields: Fields, error: Option<string>, route: Option<string>)

  /** `handleSubmit` as written; `save` is the outcome of `onSubmit` for
      the payload. */
  function Submit(s: FormState, save: Payload -> SaveOutcome): (r: FormState)
    ensures r.fields == s.fields
    ensures ValidateAsWritten(s.fields).Err? ==>
      r == FormState(s.fields, Some(ValidateAsWritten(s.fields).error), s.route)
    ensures r.route != s.route ==>
      ValidateAsWritten(s.fields).Ok? && save(ValidateAsWritten(s.fields).value).Saved?
    ensures ValidateAsWritten(s.fields).Ok? && save(ValidateAsWritten(s.fields).value).Saved? ==>
      r.route == Some(AgentsPath) && r.error == None
    ensures ValidateAsWritten(s.fields).Ok? && !save(ValidateAsWritten(s.fields).value).Saved? ==>
      r.route == s.route && r.error.Some?
    ensures ValidateAsWritten(s.fields).Ok? && save(ValidateAsWritten(s.fields).value).RejectedWithError? ==>
      r.error == Some(save(ValidateAsWritten(s.fields).value).message)
    ensures ValidateAsWritten(s.fields).Ok? && save(ValidateAsWritten(s.fields).value).RejectedOther? ==>
      r.error == Some(SaveFailed)
  {
    Settle(s, ValidateAsWritten(s.fields), save)
  }

  /** `handleSubmit` with the corrected validation. */
  function SubmitCorrected(s: FormState, save: Payload -> SaveOutcome): (r: FormState)
    ensures r.fields == s.fields
    ensures Validate(s.fields).Err? ==> r == FormState(s.fields, Some(Validate(s.fields).error), s.route)
    ensures r.route != s.route ==> Validate(s.fields).Ok? && save(Validate(s.fields).value).Saved?
    ensures Validate(s.fields).Ok? && save(Validate(s.fields).value).Saved? ==>
      r.route == Some(AgentsPath) && r.error == None
  {
    Settle(s, Validate(s.fields), save)
  }

  /** Whenever the corrected form navigates away, the payload it saved
      meets the server's creation constraint. */
  lemma CorrectedSubmitAccepted(s: FormState, save: Payload -> SaveOutcome)
    requires SubmitCorrected(s, save).route != s.route
    ensures Validate(s.fields).Ok? && save(Validate(s.fields).value).Saved?
    ensures ServerAcceptsPrompt(Validate(s.fields).value)
  {
    ValidatedPayloadAccepted(s.fields);
  }

  /** As written, the padded prompt is saved and the form navigates away
      whenever `onSubmit` resolves; on the create page the server refuses
      that prompt, so there `onSubmit` cannot resolve. */
  lemma PaddedPromptSubmittedAsWritten(s: FormState, save: Payload -> SaveOutcome)
    requires Trim(s.fields.name) != []
    requires |s.fields.prompt| == 10 && forall i :: 0 <= i < 9 ==> s.fields.prompt[i] == ' '
    requires s.fields.prompt[9] as int < 128 && !IsJsWhitespace(s.fields.prompt[9])
    requires save(PayloadOf(s.fields)).Saved?
    ensures Submit(s, save).route == Some(AgentsPath)
    ensures !ServerAcceptsPrompt(PayloadOf(s.fields))
  {
    PaddedPromptPassesAsWritten(s.fields);
  }

  lemma SubmitSettles(s: FormState, save: Payload -> SaveOutcome)
    ensures Submit(s, save) == Settle(s, ValidateAsWritten(s.fields), save)
  {
  }

  /** What `handleSubmit` does once validation has decided. */
  function Settle(s: FormState, checked: Result<Payload, string>, save: Payload -> SaveOutcome): (r: FormState)
    ensures r.fields == s.fields
    ensures checked.Err? ==> r == FormState(s.fields, Some(checked.error), s.route)
    ensures r.route != s.route ==> checked.Ok? && save(checked.value).Saved?
    ensures checked.Ok? && save(checked.value).Saved? ==> r.route == Some(AgentsPath) && r.error == None
    ensures checked.Ok? && !save(checked.value).Saved? ==> r.route == s.route && r.error.Some?
  {
    match checked
    case Err(e) => FormState(s.fields, Some(e), s.route)
    case Ok(p) =>
      match save(p)
      case Saved => FormState(s.fields, None, Some(AgentsPath))
      case RejectedWithError(m) => FormState(s.fields, Some(m), s.route)
      case RejectedOther => FormState(s.fields, Some(SaveFailed), s.route)
  }

  class AgentFormComponent {
    var fields: Fields
    var error: Option<string>
    var route: Option<string>

    function State(): FormState
      reads this
    {
      FormState(fields, error, route)
    }

    constructor (agent: Option<Agent>)
      ensures State() == FormState(InitialFields(agent), None, None)
    {
      fields := InitialFields(agent);
      error := None;
      route := None;
    }

    /** `handleSubmit`: clear the error, validate, then save and navigate
        or show why not. */
    method HandleSubmit(save: Payload -> SaveOutcome)
      modifies this
      ensures State() == Submit(old(State()), save)
    {
      var f := fields;
      ghost var before := FormState(f, error, route);
      error := None;
      var checked := ValidateAsWritten(f);
      Settled(checked, save);
      SubmitSettles(before, save);
    }

    /** The part of `handleSubmit` after validation: show the validation
        error, or await `onSubmit` and then navigate or show why not. */
    method Settled(checked: Result<Payload, string>, save: Payload -> SaveOutcome)
      requires error == None
      modifies this
      ensures State() == Settle(old(State()), checked, save)
    {
      if checked.Err? {
        error := Some(checked.error);
        return;
      }
      match save(checked.value) {
        case Saved =>
          route := Some(AgentsPath);
        case RejectedWithError(m) =>
          error := Some(m);
        case RejectedOther =>
          error := Some(SaveFailed);
      }
    }
  }
}
