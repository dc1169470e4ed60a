// The older check convention of generic, issues, testing and terraform:
// each check is handed the `GithubLinter` and two `DICTLIST` objects, one
// for errors and one for warnings, and files its results into them in
// place with `add_result` (github_linter/__init__.py:358-365).
module ResultObjects {
  import opened Sinks
  import opened LintModules

  /** A `DICTLIST` handed to a check; the caller may pass the same object twice. */
  class ResultObject {
    var sink: Sink

    constructor ()
      ensures sink == []
    {
      sink := [];
    }

    /** `add_result(self, category, value)`. */
    method AddResult(category: string, value: string)
      modifies this
      ensures sink == Added(old(sink), category, value)
    {
      sink := Added(sink, category, value);
    }

    /** Each message through `add_result`, in order. */
    method AddAll(messages: seq<Message>)
      modifies this
      ensures sink == Record(old(sink), messages)
    {
      var i := 0;
      while i < |messages|
        invariant 0 <= i <= |messages|
        invariant sink == Record(old(sink), messages[..i])
      {
        assert messages[..i + 1][..i] == messages[..i];
        AddResult(messages[i].category, messages[i].text);
        i := i + 1;
      }
      assert messages[..i] == messages;
    }
  }

  /**
   * The two objects after a check that produced `run` received its
   * results, from `errors0` and `warnings0`.
   */
  ghost predicate Delivered(run: CommandRun, errors0: Sink, warnings0: Sink, errors: ResultObject, warnings: ResultObject)
    reads errors, warnings
  {
    if errors != warnings then errors.sink == Record(errors0, run.errors) && warnings.sink == Record(warnings0, run.warnings)
    else errors.sink == Record(Record(warnings0, run.warnings), run.errors)
  }

  /**
   * A check's results reach its two objects: its warnings first, then its
   * errors (the one check that files both, `check_providers_for_modules`,
   * files its error after every warning). When both parameters are the
   * same object it receives both lists, in that order.
   */
  method Deliver(run: CommandRun, errors: ResultObject, warnings: ResultObject)
    modifies errors, warnings
    ensures Delivered(run, old(errors.sink), old(warnings.sink), errors, warnings)
  {
    warnings.AddAll(run.warnings);
    errors.AddAll(run.errors);
  }
}
