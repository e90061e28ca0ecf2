/** The input validator (`InputValidator`, src/main.ts:24-63): six ordered
    checks over the action's inputs, the first failing one deciding the
    message, and the translation of a template-data parse failure. */
module Validator {
  import opened Wrappers
  import opened EmailShape

  /** The action's inputs (src/main.ts:9-18). An optional input that was not
      supplied is the empty string, as the runner's input reader returns it. */
  datatype ActionInputs = ActionInputs(
    postmarkToken: string,
    to: string,
    from: string,
    subject: string,
    body: string,
    isHtml: bool,
    templatePath: string,
    templateData: string)

  const TokenRequired := "Postmark token is required"
  const RecipientRequired := "Valid recipient email is required"
  const SenderRequired := "Valid sender email is required"
  const SubjectRequired := "Email subject is required"
  const TemplateDataRequired := "Template data is required when using a template"
  const BodyRequired := "Either template path or email body is required"
  const InvalidJson := "Template data must be valid JSON"

  /** JavaScript truthiness of a string: only the empty string is falsy. */
  predicate Truthy(s: string) {
    s != ""
  }

  /** One entry of the validator's ordered list: the condition that must hold
      and the message reported when it does not. */
  datatype Check = Check(holds: bool, message: string)

  /** The six checks in the order the validator runs them. */
  function Checks(inputs: ActionInputs): (cs: seq<Check>)
    ensures |cs| == 6
  {
    [ Check(Truthy(inputs.postmarkToken), TokenRequired),
      Check(Truthy(inputs.to) && IsValidEmail(inputs.to), RecipientRequired),
      Check(Truthy(inputs.from) && IsValidEmail(inputs.from), SenderRequired),
      Check(Truthy(inputs.subject), SubjectRequired),
      Check(!(Truthy(inputs.templatePath) && !Truthy(inputs.templateData)), TemplateDataRequired),
      Check(!(!Truthy(inputs.templatePath) && !Truthy(inputs.body)), BodyRequired) ]
  }

  /** Short-circuit evaluation of an ordered list of checks. */
  function FirstFailure(cs: seq<Check>): Outcome {
    if cs == [] then Pass
    else if !cs[0].holds then Fail(cs[0].message)
    else FirstFailure(cs[1..])
  }

  /** `InputValidator.validate`: a failure is the thrown error, `Pass` a normal return. */
  function Validate(inputs: ActionInputs): (r: Outcome)
    ensures r == Pass ==> IsValidEmail(inputs.to) && IsValidEmail(inputs.from)
    ensures r == Pass ==> inputs.postmarkToken != "" && inputs.subject != ""
    ensures r.Fail? ==> r.error in [TokenRequired, RecipientRequired, SenderRequired,
                                    SubjectRequired, TemplateDataRequired, BodyRequired]
  {
    if !Truthy(inputs.postmarkToken) then Fail(TokenRequired)
    else if !Truthy(inputs.to) || !IsValidEmail(inputs.to) then Fail(RecipientRequired)
    else if !Truthy(inputs.from) || !IsValidEmail(inputs.from) then Fail(SenderRequired)
    else if !Truthy(inputs.subject) then Fail(SubjectRequired)
    else if Truthy(inputs.templatePath) && !Truthy(inputs.templateData) then Fail(TemplateDataRequired)
    else if !Truthy(inputs.templatePath) && !Truthy(inputs.body) then Fail(BodyRequired)
    else Pass
  }

  /** A list of checks passes exactly when every check holds, and otherwise
      fails with the message of the first check that does not. */
  lemma {:induction false} FirstFailureIsFirst(cs: seq<Check>)
    ensures FirstFailure(cs) == Pass <==> forall k :: 0 <= k < |cs| ==> cs[k].holds
    ensures forall k :: 0 <= k < |cs| && !cs[k].holds && (forall m :: 0 <= m < k ==> cs[m].holds)
              ==> FirstFailure(cs) == Fail(cs[k].message)
  {
    if cs != [] {
      FirstFailureIsFirst(cs[1..]);
      assert forall k :: 1 <= k < |cs| ==> cs[k] == cs[1..][k - 1];
      if cs[0].holds {
        forall k | 0 <= k < |cs| && !cs[k].holds && (forall m :: 0 <= m < k ==> cs[m].holds)
          ensures FirstFailure(cs) == Fail(cs[k].message)
        {
          assert k > 0;
          assert forall m :: 0 <= m < k - 1 ==> cs[1..][m].holds by {
            forall m | 0 <= m < k - 1 ensures cs[1..][m].holds {
              assert cs[1..][m] == cs[m + 1];
            }
          }
        }
      }
    }
  }

  /** The nested tests of `validate` are the short-circuit evaluation of the
      ordered list of checks. */
  lemma ValidateIsFirstFailure(inputs: ActionInputs)
    ensures Validate(inputs) == FirstFailure(Checks(inputs))
  {
    var cs := Checks(inputs);
    assert FirstFailure(cs[5..]) == (if cs[5].holds then Pass else Fail(cs[5].message));
    assert FirstFailure(cs[4..]) == (if cs[4].holds then FirstFailure(cs[5..]) else Fail(cs[4].message)) by {
      assert cs[4..][1..] == cs[5..];
    }
    assert FirstFailure(cs[3..]) == (if cs[3].holds then FirstFailure(cs[4..]) else Fail(cs[3].message)) by {
      assert cs[3..][1..] == cs[4..];
    }
    assert FirstFailure(cs[2..]) == (if cs[2].holds then FirstFailure(cs[3..]) else Fail(cs[2].message)) by {
      assert cs[2..][1..] == cs[3..];
    }
    assert FirstFailure(cs[1..]) == (if cs[1].holds then FirstFailure(cs[2..]) else Fail(cs[1].message)) by {
      assert cs[1..][1..] == cs[2..];
    }
  }

  /** `validate` fails with the message of check `k` when that check is the
      first to fail. */
  lemma ValidateReportsFirstFailingCheck(inputs: ActionInputs, k: nat)
    requires k < 6
    requires !Checks(inputs)[k].holds
    requires forall m :: 0 <= m < k ==> Checks(inputs)[m].holds
    ensures Validate(inputs) == Fail(Checks(inputs)[k].message)
  {
    ValidateIsFirstFailure(inputs);
    FirstFailureIsFirst(Checks(inputs));
  }

  /** `validate` returns normally exactly when all six checks hold, which in
      terms of the inputs reads as below; the `!inputs.to` half of the address
      checks is subsumed, since the empty string is never an address. */
  lemma ValidatePassesIff(inputs: ActionInputs)
    ensures Validate(inputs) == Pass <==>
      && inputs.postmarkToken != ""
      && IsValidEmail(inputs.to)
      && IsValidEmail(inputs.from)
      && inputs.subject != ""
      && (inputs.templatePath != "" ==> inputs.templateData != "")
      && (inputs.templatePath == "" ==> inputs.body != "")
  {
    EmptyIsNotEmail();
    ValidateIsFirstFailure(inputs);
    FirstFailureIsFirst(Checks(inputs));
  }

  /** After a successful `validate`, the template branch of the action
      (which tests both the path and the data) is taken exactly when a
      template path was given. */
  lemma TemplateBranchIffPath(inputs: ActionInputs)
    requires Validate(inputs) == Pass
    ensures (Truthy(inputs.templatePath) && Truthy(inputs.templateData)) <==> inputs.templatePath != ""
  {
    ValidatePassesIff(inputs);
  }

  /** `InputValidator.validateTemplateData`: the foreign JSON parser's outcome
      is passed in; its value is returned unchanged and any parse error,
      whatever its cause, becomes the one fixed message. */
  function ValidateTemplateData<D>(parsed: Result<D>): (r: Result<D>)
    ensures r.Ok? <==> parsed.Ok?
    ensures r.Ok? ==> r.value == parsed.value
    ensures r.Err? ==> r.error == InvalidJson
  {
    match parsed
    case Ok(data) => Ok(data)
    case Err(_) => Err(InvalidJson)
  }
}
