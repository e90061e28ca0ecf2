# postmark-action, modelled in Dafny

A GitHub Action that sends one transactional email through the Postmark API.
The action validates its inputs. When a template is named, it renders the body
from that template and JSON data. It then sends the email and ends in exactly
one report to the workflow runner: `status = success` or a failure message.
The model covers the logic of `src/main.ts` with every external call (input
reading, file system, template engine, JSON parser, Postmark client) replaced
by a parameter:

- `EmailShape` (email_shape.dfy): the address test `isValidEmail`. The
  regular expression `^[^\s@]+@[^\s@]+\.[^\s@]+$` is stated as a predicate
  over split positions (`MatchesEmailRegex`). A plain string predicate
  (`IsValidEmail`: no whitespace, exactly one `@` with something before it,
  a `.` inside the domain with something on each side) is proved to accept
  exactly the same strings.
- `Validator` (validator.dfy): `InputValidator.validate`, as a function over
  an `ActionInputs` value returning `Pass` or `Fail(message)`, and
  `validateTemplateData`. An ordered table of the six checks with a
  short-circuit evaluator is the reference the nested tests are proved equal to.
- `Templates` (template_processor.dfy): the `TemplateProcessor` class with its
  nullable `template` field (an `Option`), `LoadTemplate` (which alone assigns
  the field), `ProcessTemplate` (which reads it), and the `conditional` helper.
- `Sender` (email_service.dfy): `EmailService.sendEmail`'s translation of the
  client's response or error.
- `Action` (action.dfy): `run`, as a method returning the one report and the
  payload handed to the client (`None` when no send was attempted).
- `Wrappers` (wrappers.dfy): `Option`, `Result`, `Outcome` and the
  "re-raise with a prefix" translation that load, render and send all go through.
- `Scenarios` (scenarios.dfy): the validation and send cases of
  `__tests__/main.test.ts`, replayed against the model.

Exceptions become `Result`/`Outcome` values. A thrown error's message is the
string carried by `Err`/`Fail`. A missing optional input is `""`, which is
what the runner's input reader returns. JavaScript truthiness of a string is
"non-empty" (`Validator.Truthy`).

## Model

| member | source | states |
|---|---|---|
| EmailShape.MatchesEmailRegex | src/main.ts:60-61 | what `/^[^\s@]+@[^\s@]+\.[^\s@]+$/.test(s)` accepts: a run of non-whitespace, non-`@` characters, `@`, such a run, `.`, such a run, and nothing else; a match has at least five characters and an `@` (its full meaning is stated by `EmailShape.IsValidEmailMatchesRegex`) |
| EmailShape.IsValidEmail | src/main.ts:59-62 | `isValidEmail`; an accepted string has at least five characters, contains `@` and does not start with it; `EmailShape.IsValidEmailMatchesRegex` proves it accepts exactly what the regex accepts |
| EmailShape.IsValidEmailMatchesRegex | src/main.ts:59-62 | the plain predicate (no whitespace, exactly one `@` with a non-empty part before it, a `.` in the part after it with a character on each side) holds exactly when the anchored regex `^[^\s@]+@[^\s@]+\.[^\s@]+$` matches, in both directions |
| EmailShape.EmptyIsNotEmail | src/main.ts:30-36 | the empty string is never an address, so the `!inputs.to` / `!inputs.from` halves of the address checks add nothing to the regex test |
| Validator.Validate | src/main.ts:25-49 | `validate`: a pass means both addresses are valid and the token and subject are non-empty; a failure carries one of the six fixed messages; which one, and exactly when it passes, is stated by `Validator.ValidateIsFirstFailure`, `Validator.ValidateReportsFirstFailingCheck` and `Validator.ValidatePassesIff` |
| Validator.ValidateIsFirstFailure | src/main.ts:25-49 | `validate` is the short-circuit evaluation of the ordered list token, to, from, subject, path-without-data, no-path-and-no-body, each with its fixed message |
| Validator.FirstFailureIsFirst | src/main.ts:25-49 | an ordered list of checks passes iff every check holds, and otherwise fails with the message of the first check that does not hold |
| Validator.ValidateReportsFirstFailingCheck | src/main.ts:25-49 | when check k is the first of the six to fail, `validate` fails with exactly check k's message |
| Validator.ValidatePassesIff | src/main.ts:25-49 | `validate` returns normally iff the token and subject are non-empty, `to` and `from` are addresses, a set template path comes with non-empty data, and without a path the body is non-empty |
| Validator.TemplateBranchIffPath | src/main.ts:164 | after a successful `validate`, the test `templatePath && templateData` that `run` uses holds exactly when the template path is non-empty |
| Validator.ValidateTemplateData | src/main.ts:51-57 | a successful parse is returned unchanged; every parse failure, whatever its cause, becomes "Template data must be valid JSON" |
| Wrappers.WithPrefix | src/main.ts:89-95 | re-raising keeps a value unchanged and turns a failure into prefix + cause, from which the cause can be read back |
| Templates.TemplateProcessor.constructor | src/main.ts:67 | a new processor holds no template |
| Templates.TemplateProcessor.LoadTemplate | src/main.ts:69-80 | a read failure or a compile failure is reported as "Failed to load template: " + cause and leaves the field unchanged; only a successful read and compile stores the compiled template; a loaded processor never becomes unloaded |
| Templates.TemplateProcessor.ProcessTemplate | src/main.ts:82-96 | with no template it fails with "Template not loaded"; otherwise it returns the render of the held template, a render failure becoming "Failed to process template: " + cause; the processor is not changed |
| Templates.Conditional | src/main.ts:108-112 | the `conditional` helper yields the positive text when the condition is truthy in the JavaScript sense (`false`, `0`, `NaN`, `""`, `null` and `undefined` are falsy) and the negative text otherwise, whatever JavaScript value the template passes |
| Sender.SendEmail | src/main.ts:126-138 | the payload goes to the client built with the server token unchanged; a response yields true iff its error code is 0; a client error becomes "Failed to send email: " + cause |
| Action.BuildPayload | src/main.ts:175-180 | `To`, `From` and `Subject` are copied verbatim; the body sits under `HtmlBody` iff the email is HTML and under `TextBody` iff it is not, never both and never neither, and it reads back as the given body |
| Action.Run | src/main.ts:145-190 | a validation failure is reported verbatim with no send; with a template path, a JSON, load or render failure is reported with its message and no send, and otherwise the rendered text is the body; without one the literal body is sent; the report is success iff the client answered with error code 0, "Failed to send email" for any other code, and "Failed to send email: " + cause when the client failed |
| Scenarios.MissingTokenScenario | __tests__/main.test.ts:49-56 | an empty token fails validation with "Postmark token is required" |
| Scenarios.InvalidRecipientScenario | __tests__/main.test.ts:58-67 | recipient "invalid-email" fails with "Valid recipient email is required" |
| Scenarios.InvalidSenderScenario | __tests__/main.test.ts:69-78 | sender "invalid-email" fails with "Valid sender email is required" |
| Scenarios.MissingBodyScenario | __tests__/main.test.ts:80-89 | no body and no template path fails with "Either template path or email body is required" |
| Scenarios.DefaultInputsPass | __tests__/main.test.ts:27-36 | the tests' default inputs pass validation |

`Scenarios` also holds methods replaying `run` on the plain-text, HTML and
client-error cases of `__tests__/main.test.ts:128-174`. Two more show cases no
test covers: a response with a non-zero error code, which `run` reports as
"Failed to send email" (src/main.ts:130, 185), and a template run with a render
oracle that returns "Hello John!".

`run` ends in exactly one report by construction: `Run` returns one `Report`,
either `StatusSuccess` or `Failed(message)`. `validate` and
`validateTemplateData` are functions, so they change nothing.
`ProcessTemplate` has no `modifies` clause, so rendering the same template
with the same data twice gives the same result.

Validation guarantees a non-empty literal body, but a rendered template may be
the empty string; the payload then still carries its one body field, holding
`""`, and `BuildPayload` states exactly that.

## Left out

- Reading inputs from the runner (`getInput`, `getBooleanInput`, src/main.ts:148-157) is not modelled: `Run` starts from an `ActionInputs` value. The reader's own "input required" error raised before `validate` runs belongs to that library.
- `setOutput` and `setFailed` (src/main.ts:183, 189) become the returned `Report`.
- The `error instanceof Error` guard in the top-level catch (src/main.ts:189) is not modelled. Every error the modelled code raises is an `Error`, so the guard always passes there. A non-`Error` thrown by the unmodelled input reader would produce no report.
- `fs.readFile` and the template engine's compile and render steps (src/main.ts:71-72, 88) are function parameters returning a `Result`. No template language is modelled.
- `JSON.parse` (src/main.ts:53) is a parameter; only its success or failure and the error translation are modelled.
- The Postmark `ServerClient`, its configuration options and the network (src/main.ts:117-124) are modelled as a function from the server token and the payload to a response or an error message. Only the response's `ErrorCode` is modelled.
- An error thrown by `new ServerClient(serverToken)` (src/main.ts:123, run at src/main.ts:174) is not modelled. It happens outside `sendEmail`'s try, so it would reach `setFailed` with its own message rather than "Failed to send email: …". The `Client` function type has no such path. Validation lets odd tokens through (a whitespace-only token is truthy), so this path is reachable.
- The translation `error instanceof Error ? error.message : String(error)` is folded into the cause string that an oracle's `Err` carries.
- `formatDate`, `uppercase` and `lowercase` (src/main.ts:100-106) depend on the host's locale and Unicode case mapping. The process-wide registration of helpers (`registerHelpers`, src/main.ts:99-113) is not modelled either; only `conditional` is. `run` never calls `registerHelpers`, so inside the action the helpers are never registered and `conditional` is reachable only by a caller that registers it first.
- async/await is not modelled: every await is an ordinary sequential call.
- Characters are Unicode scalar values, while the JavaScript regex (no `u` flag) scans UTF-16 code units. This changes nothing here, because `@` and every `\s` character are single code units and no surrogate half is whitespace.
