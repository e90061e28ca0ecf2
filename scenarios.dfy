/** Concrete runs taken from the repository's tests (__tests__/main.test.ts),
    stated as lemmas about the model. */
module Scenarios {
  import opened Wrappers
  import opened EmailShape
  import opened Validator
  import opened Templates
  import opened Sender
  import opened Action

  /** The valid inputs the validation tests start from. */
  function DefaultInputs(): ActionInputs {
    ActionInputs("test-token", "test@example.com", "sender@example.com",
                 "Test Subject", "Test Body", false, "", "")
  }

  lemma DefaultAddressesAreValid()
    ensures IsValidEmail("test@example.com") && IsValidEmail("sender@example.com")
  {
    var a, b := "test@example.com", "sender@example.com";
    assert SplitsAt(a, 4, 12);
    assert SplitsAt(b, 6, 14);
    IsValidEmailMatchesRegex(a);
    IsValidEmailMatchesRegex(b);
  }

  lemma InvalidEmailIsRejected()
    ensures !IsValidEmail("invalid-email")
  {
    assert '@' !in "invalid-email";
  }

  /** The four validation tests: a missing token, an invalid recipient, an
      invalid sender, and neither a template path nor a body; the inputs they
      start from pass. */
  lemma MissingTokenScenario()
    ensures Validate(DefaultInputs().(postmarkToken := "")) == Fail(TokenRequired)
  {
  }

  lemma InvalidRecipientScenario()
    ensures Validate(DefaultInputs().(to := "invalid-email")) == Fail(RecipientRequired)
  {
    InvalidEmailIsRejected();
  }

  lemma InvalidSenderScenario()
    ensures Validate(DefaultInputs().(from := "invalid-email")) == Fail(SenderRequired)
  {
    DefaultAddressesAreValid();
    InvalidEmailIsRejected();
    InvalidSenderFails(DefaultInputs().(from := "invalid-email"));
  }

  lemma InvalidSenderFails(inputs: ActionInputs)
    requires inputs.postmarkToken != "" && IsValidEmail(inputs.to) && !IsValidEmail(inputs.from)
    ensures Validate(inputs) == Fail(SenderRequired)
  {
  }

  lemma MissingBodyScenario()
    ensures Validate(DefaultInputs().(body := "")) == Fail(BodyRequired)
  {
    DefaultAddressesAreValid();
    NoPathNoBodyFails(DefaultInputs().(body := ""));
  }

  lemma NoPathNoBodyFails(inputs: ActionInputs)
    requires inputs.postmarkToken != "" && inputs.subject != ""
    requires IsValidEmail(inputs.to) && IsValidEmail(inputs.from)
    requires inputs.templatePath == "" && inputs.body == ""
    ensures Validate(inputs) == Fail(BodyRequired)
  {
  }

  lemma HtmlInputsPass()
    ensures Validate(DefaultInputs().(isHtml := true)) == Pass
  {
    DefaultAddressesAreValid();
    ValidatePassesIff(DefaultInputs().(isHtml := true));
  }

  lemma DefaultInputsPass()
    ensures Validate(DefaultInputs()) == Pass
  {
    DefaultAddressesAreValid();
    ValidatePassesIff(DefaultInputs());
  }

  /** A `run` whose template oracles are never consulted. */
  method RunWithoutTemplate(inputs: ActionInputs, client: Client) returns (report: Report, sent: Option<EmailPayload>)
    requires Validate(inputs) == Pass && inputs.templatePath == ""
    ensures sent == Some(BuildPayload(inputs, inputs.body))
    ensures match client(inputs.postmarkToken, sent.value)
      case Err(cause) => report == Failed(SendFailed + cause)
      case Ok(response) => report == (if response.errorCode == 0 then StatusSuccess else Failed(SendRejected))
  {
    report, sent := Run<int, int>(inputs, s => Err(""), path => Err(""), text => Err(""), (t, d) => Err(""), client);
  }

  /** The send tests of `run`: a plain-text email, an HTML email and a
      client that throws. */
  method PlainTextScenario() {
    DefaultInputsPass();
    var report, sent := RunWithoutTemplate(DefaultInputs(), (token, p) => Ok(SendResponse(0)));
    assert sent == Some(EmailPayload("test@example.com", "sender@example.com", "Test Subject",
                                     Some("Test Body"), None));
    assert report == StatusSuccess;
  }

  method HtmlScenario() {
    HtmlInputsPass();
    var report, sent := RunWithoutTemplate(DefaultInputs().(isHtml := true), (token, p) => Ok(SendResponse(0)));
    assert sent == Some(EmailPayload("test@example.com", "sender@example.com", "Test Subject",
                                     None, Some("Test Body")));
    assert report == StatusSuccess;
  }

  method ClientErrorScenario() {
    DefaultInputsPass();
    var report, sent := RunWithoutTemplate(DefaultInputs(), (token, p) => Err("Postmark API Error"));
    assert report == Failed(SendFailed + "Postmark API Error");
  }

  /** A response with a non-zero error code makes the send return false,
      which `run` reports as a failure (src/main.ts:130, 185). */
  method RejectedScenario() {
    DefaultInputsPass();
    var report, sent := RunWithoutTemplate(DefaultInputs(), (token, p) => Ok(SendResponse(406)));
    assert report == Failed("Failed to send email");
  }

  /** Inputs naming a template and its data, with no literal body. */
  function TemplateInputs(): ActionInputs {
    DefaultInputs().(body := "", templatePath := "templates/test.html", templateData := "{\"name\":\"John\"}")
  }

  lemma TemplateInputsPass()
    ensures Validate(TemplateInputs()) == Pass
  {
    DefaultAddressesAreValid();
    ValidatePassesIff(TemplateInputs());
  }

  /** A template whose text renders to "Hello John!" is sent as the body; a
      missing template file ends the run with the load prefix and no send. */
  method TemplateScenario() {
    TemplateInputsPass();
    var inputs := TemplateInputs();
    var parse := (s: string) => Ok("parsed");
    var read := (path: string) => if path == "templates/test.html" then Ok("Hello {{name}}!") else Err("File not found");
    var compile := (text: string) => Ok(text);
    var render := (t: string, d: string) => Ok("Hello John!");
    var client := (token: string, p: EmailPayload) => Ok(SendResponse(0));
    var report, sent := Run(inputs, parse, read, compile, render, client);
    assert sent.Some? && sent.value.textBody == Some("Hello John!");
    assert report == StatusSuccess;

    var missing := (path: string) => Err("File not found");
    report, sent := Run(inputs, parse, missing, compile, render, client);
    assert report == Failed(LoadFailed + "File not found") && sent == None;
  }
}
