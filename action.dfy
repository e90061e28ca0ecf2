/** The action's entry point (`run`, src/main.ts:145-191): validate the
    inputs, render the body from a template when one is given, send one
    email and end in exactly one report to the runner.

    Reading the inputs from the runner is not modelled: `Run` starts from the
    assembled `ActionInputs`. The JSON parser, the file read, the template
    engine and the delivery client are passed in as functions. */
module Action {
  import opened Wrappers
  import opened EmailShape
  import opened Validator
  import opened Templates
  import opened Sender

  const SendRejected := "Failed to send email"

  /** The one terminal report of a run: `setOutput('status', 'success')` or
      `setFailed(message)`. */
  datatype Report = StatusSuccess | Failed(message: string)

  /** The body a payload carries, from whichever of its two fields is set. */
  function BodyOf(p: EmailPayload): string {
    if p.htmlBody.Some? then p.htmlBody.value
    else if p.textBody.Some? then p.textBody.value
    else ""
  }

  /** The payload `run` sends: address fields and subject copied verbatim, and
      the body under `HtmlBody` for an HTML email, under `TextBody` otherwise,
      never both and never neither. */
  function BuildPayload(inputs: ActionInputs, body: string): (p: EmailPayload)
    ensures p.to == inputs.to && p.from == inputs.from && p.subject == inputs.subject
    ensures p.htmlBody.Some? <==> inputs.isHtml
    ensures p.textBody.Some? <==> !inputs.isHtml
    ensures BodyOf(p) == body
  {
    if inputs.isHtml then EmailPayload(inputs.to, inputs.from, inputs.subject, None, Some(body))
    else EmailPayload(inputs.to, inputs.from, inputs.subject, Some(body), None)
  }

  /** `run()`. `report` is the one report made to the runner and `sent` the
      payload handed to the delivery client, `None` when no send was attempted. */
  method Run<D, T>(inputs: ActionInputs,
                   parseJson: string -> Result<D>,
                   readFile: string -> Result<string>,
                   compile: string -> Result<T>,
                   render: (T, D) -> Result<string>,
                   client: Client)
    returns (report: Report, sent: Option<EmailPayload>)
    // a validation failure is reported verbatim and nothing is sent
    ensures Validate(inputs).Fail? ==> report == Failed(Validate(inputs).error) && sent == None
    // without a template path the literal body is sent
    ensures Validate(inputs) == Pass && inputs.templatePath == "" ==>
      sent == Some(BuildPayload(inputs, inputs.body))
    // with a template path: parse, load, render, each failure ending the run unsent
    ensures Validate(inputs) == Pass && inputs.templatePath != "" ==>
      match parseJson(inputs.templateData)
      case Err(_) => report == Failed(InvalidJson) && sent == None
      case Ok(data) =>
        match readFile(inputs.templatePath)
        case Err(cause) => report == Failed(LoadFailed + cause) && sent == None
        case Ok(text) =>
          match compile(text)
          case Err(cause) => report == Failed(LoadFailed + cause) && sent == None
          case Ok(template) =>
            match render(template, data)
            case Err(cause) => report == Failed(ProcessFailed + cause) && sent == None
            case Ok(rendered) => sent == Some(BuildPayload(inputs, rendered))
    // a sent payload copies the fields and carries exactly one body
    ensures sent.Some? ==>
      && sent.value.to == inputs.to && sent.value.from == inputs.from
      && sent.value.subject == inputs.subject
      && (sent.value.htmlBody.Some? <==> inputs.isHtml)
      && (sent.value.textBody.Some? <==> !inputs.isHtml)
    // the send's outcome decides the report
    ensures sent.Some? ==>
      match client(inputs.postmarkToken, sent.value)
      case Err(cause) => report == Failed(SendFailed + cause)
      case Ok(response) => report == (if response.errorCode == 0 then StatusSuccess else Failed(SendRejected))
    ensures report == StatusSuccess <==>
      sent.Some? && client(inputs.postmarkToken, sent.value).Ok? &&
      client(inputs.postmarkToken, sent.value).value.errorCode == 0
  {
    sent := None;
    var validated := Validate(inputs);
    if validated.Fail? {
      return Failed(validated.error), None;
    }
    TemplateBranchIffPath(inputs);

    var body := inputs.body;
    if Truthy(inputs.templatePath) && Truthy(inputs.templateData) {
      var templateData := ValidateTemplateData(parseJson(inputs.templateData));
      if templateData.Err? {
        return Failed(templateData.error), None;
      }
      var processor := new TemplateProcessor<T>();
      var loaded := processor.LoadTemplate(inputs.templatePath, readFile, compile);
      if loaded.Fail? {
        return Failed(loaded.error), None;
      }
      var rendered := processor.ProcessTemplate(templateData.value, render);
      if rendered.Err? {
        return Failed(rendered.error), None;
      }
      body := rendered.value;
    }

    var payload := BuildPayload(inputs, body);
    sent := Some(payload);
    var success := SendEmail(inputs.postmarkToken, payload, client);
    if success.Err? {
      report := Failed(success.error);
    } else if success.value {
      report := StatusSuccess;
    } else {
      report := Failed(SendRejected);
    }
  }
}
