/** Validation issues and the loop every route runs to turn them into the
    per-field `errors` dictionary of a 400 response. */
module ValidationErrors {
  import opened Strings

  /** One zod issue: where in the input it arose and what it says. Array
      indices in a path are written as their decimal text. */
  datatype Issue = Issue(path: seq<string>, message: string)

  /** `issue.path.join(".")`: the dictionary key of an issue. */
  function IssueKey(issue: Issue): string
  {
    Join(issue.path, ".")
  }

  /** The messages of the issues filed under `key`, in issue order. */
  function MessagesFor(issues: seq<Issue>, key: string): seq<string>
  {
    if issues == [] then []
    else
      var last := issues[|issues| - 1];
      MessagesFor(issues[..|issues| - 1], key) + (if IssueKey(last) == key then [last.message] else [])
  }

  /** The number of issues filed under `key`. */
  function CountFor(issues: seq<Issue>, key: string): nat
  {
    if issues == [] then 0
    else CountFor(issues[..|issues| - 1], key) + (if IssueKey(issues[|issues| - 1]) == key then 1 else 0)
  }

  /** Grouping keeps every message of a key, and only those: a key has as
      many messages as it has issues, and none exactly when no issue has it. */
  lemma {:induction false} MessagesForCount(issues: seq<Issue>, key: string)
    ensures |MessagesFor(issues, key)| == CountFor(issues, key)
    ensures MessagesFor(issues, key) == [] <==> forall i :: 0 <= i < |issues| ==> IssueKey(issues[i]) != key
  {
    if issues != [] {
      var init := issues[..|issues| - 1];
      MessagesForCount(init, key);
      assert forall i :: 0 <= i < |init| ==> init[i] == issues[i];
    }
  }

  /** Grouping the issues of two batches is grouping each batch, in order. */
  lemma {:induction false} MessagesForAppend(a: seq<Issue>, b: seq<Issue>, key: string)
    ensures MessagesFor(a + b, key) == MessagesFor(a, key) + MessagesFor(b, key)
  {
    if b != [] {
      assert (a + b)[..|a + b| - 1] == a + b[..|b| - 1];
      MessagesForAppend(a, b[..|b| - 1], key);
    } else {
      assert a + b == a;
    }
  }

  /** The dictionary the grouping loop builds: each joined path that some
      issue has, mapped to its messages. */
  function Grouped(issues: seq<Issue>): map<string, seq<string>>
  {
    map iss | iss in issues :: IssueKey(iss) := MessagesFor(issues, IssueKey(iss))
  }

  /** The loop shared by the register, login, task and confirm routes:
      for each issue, in order, append its message to the list under its
      joined path, creating the list on first use. The result maps exactly
      the keys that have messages, each to its messages in issue order
      (`MessagesForCount` says which keys those are). */
  method GroupIssues(issues: seq<Issue>) returns (errors: map<string, seq<string>>)
    ensures forall key :: key in errors <==> MessagesFor(issues, key) != []
    ensures forall key :: key in errors ==> errors[key] == MessagesFor(issues, key)
    ensures errors == Grouped(issues)
  {
    errors := map[];
    for i := 0 to |issues|
      invariant forall key :: key in errors <==> MessagesFor(issues[..i], key) != []
      invariant forall key :: key in errors ==> errors[key] == MessagesFor(issues[..i], key)
    {
      var key := IssueKey(issues[i]);
      assert issues[..i + 1][..i] == issues[..i];
      assert forall k :: (MessagesFor(issues[..i + 1], k) ==
                          MessagesFor(issues[..i], k) + (if key == k then [issues[i].message] else []));
      if key !in errors {
        errors := errors[key := []];
      }
      errors := errors[key := errors[key] + [issues[i].message]];
    }
    assert issues[..|issues|] == issues;
    forall key
      ensures key in errors <==> key in Grouped(issues)
    {
      MessagesForCount(issues, key);
      if key in errors {
        var i :| 0 <= i < |issues| && IssueKey(issues[i]) == key;
        assert issues[i] in issues;
      }
    }
  }
}
