/** The template processor (`TemplateProcessor`, src/main.ts:66-114).

    Reading the template file and the template engine are not modelled: the
    file read, the engine's compile step and its render step are passed in as
    functions returning a `Result`, whose failure carries the cause's message. */
module Templates {
  import opened Wrappers

  const LoadFailed := "Failed to load template: "
  const ProcessFailed := "Failed to process template: "
  const NotLoaded := "Template not loaded"

  /** A processor starts with no template (`template` is `null`) and holds a
      compiled template `T` once a load has succeeded. */
  class TemplateProcessor<T> {
    var template: Option<T>

    predicate Loaded()
      reads this
    {
      template.Some?
    }

    constructor ()
      ensures template == None
    {
      template := None;
    }

    /** `loadTemplate(templatePath)`: read the file, compile its text, and keep
        the result. Any failure is re-raised with the load prefix and leaves
        the field as it was; a loaded processor never becomes unloaded. */
    method LoadTemplate(templatePath: string, readFile: string -> Result<string>,
                        compile: string -> Result<T>) returns (r: Outcome)
      modifies this
      ensures readFile(templatePath).Err? ==>
        r == Fail(LoadFailed + readFile(templatePath).error) && template == old(template)
      ensures readFile(templatePath).Ok? && compile(readFile(templatePath).value).Err? ==>
        r == Fail(LoadFailed + compile(readFile(templatePath).value).error) && template == old(template)
      ensures readFile(templatePath).Ok? && compile(readFile(templatePath).value).Ok? ==>
        r == Pass && template == Some(compile(readFile(templatePath).value).value)
      ensures r == Pass ==> Loaded()
      ensures old(Loaded()) ==> Loaded()
    {
      var content := readFile(templatePath);
      var compiled := if content.Ok? then compile(content.value) else Err(content.error);
      var loaded := WithPrefix(LoadFailed, compiled);
      if loaded.Err? {
        return Fail(loaded.error);
      }
      template := Some(loaded.value);
      r := Pass;
    }

    /** `processTemplate(data)`: refuse in the unloaded state, otherwise render
        the held template against `data`, re-raising a render failure with the
        process prefix. The processor's state is not changed. */
    method ProcessTemplate<D>(data: D, render: (T, D) -> Result<string>) returns (r: Result<string>)
      ensures template.None? ==> r == Err(NotLoaded)
      ensures template.Some? ==> r == WithPrefix(ProcessFailed, render(template.value, data))
      ensures r.Ok? ==> Loaded() && render(template.value, data) == Ok(r.value)
    {
      if template.None? {
        return Err(NotLoaded);
      }
      r := WithPrefix(ProcessFailed, render(template.value, data));
    }
  }

  /** A JavaScript value as a helper receives it from a template: a value of
      the parsed template data, `undefined` for a missing key, or an object or
      array. Numbers are reals with NaN apart; +0 and -0 are both `0.0`. */
  datatype JsValue =
    | Undefined
    | Null
    | JsBool(b: bool)
    | JsNumber(n: real)
    | NaN
    | JsString(s: string)
    | JsObject

  /** JavaScript truthiness: `false`, `0`, `NaN`, `""`, `null` and `undefined`
      are falsy, every other value is truthy. */
  predicate JsTruthy(v: JsValue) {
    match v
    case Undefined => false
    case Null => false
    case JsBool(b) => b
    case JsNumber(n) => n != 0.0
    case NaN => false
    case JsString(s) => s != ""
    case JsObject => true
  }

  /** The `conditional` template helper, `condition ? positive : negative`: the
      positive text when the condition is truthy and the negative text
      otherwise. The `boolean` annotation of its parameter is not enforced, so
      the condition is any value the template passes. */
  function Conditional<A>(condition: JsValue, positive: A, negative: A): (r: A)
    ensures JsTruthy(condition) ==> r == positive
    ensures !JsTruthy(condition) ==> r == negative
  {
    match condition
    case Undefined => negative
    case Null => negative
    case NaN => negative
    case JsBool(b) => if b then positive else negative
    case JsNumber(n) => if n == 0.0 then negative else positive
    case JsString(s) => if s == "" then negative else positive
    case JsObject => positive
  }
}
