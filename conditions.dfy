/**
 * The filter conditions that several tools splice into their AppleScript: a list
 * of clauses built by appending one clause per filter given, joined with
 * `" and "`, or the literal `true` when no filter is given.
 */
module Conditions {
  import opened Wrappers
  import opened Text

  const And := " and "

  function SubjectClause(keyword: string): (c: string)
    ensures c != [] && c[0] == 'm'
  {
    "messageSubject contains \"" + keyword + "\""
  }

  function SenderClause(sender: string): (c: string)
    ensures c != [] && c[0] == 'm'
  {
    "messageSender contains \"" + sender + "\""
  }

  /** A clause can never be mistaken for the literal `true`: it does not start with `t`. */
  predicate Clause(c: string) {
    c != [] && c[0] != 't'
  }

  predicate Clauses(cs: seq<string>) {
    forall k :: 0 <= k < |cs| ==> Clause(cs[k])
  }

  lemma ClausesAppend(a: seq<string>, b: seq<string>)
    requires Clauses(a) && Clauses(b)
    ensures Clauses(a + b)
  {
    forall k | 0 <= k < |a + b| ensures Clause((a + b)[k]) {
      if k < |a| {
        assert (a + b)[k] == a[k];
      } else {
        assert (a + b)[k] == b[k - |a|];
      }
    }
  }

  /** `' and '.join(conditions) if conditions else 'true'`. */
  function ConditionString(conditions: seq<string>): (r: string)
    ensures conditions == [] ==> r == "true"
    ensures conditions != [] ==> |conditions[0]| <= |r| && r[..|conditions[0]|] == conditions[0]
    ensures |conditions| == 1 ==> r == conditions[0]
  {
    if conditions == [] then "true" else JoinedFront(conditions); Join(conditions, And)
  }

  /** A join starts with its first piece. */
  lemma JoinedFront(parts: seq<string>)
    requires parts != []
    ensures |parts[0]| <= |Join(parts, And)| && Join(parts, And)[..|parts[0]|] == parts[0]
  {
    if |parts| > 1 {
      var j := Join(parts, And);
      assert j == parts[0] + (And + Join(parts[1..], And));
    }
  }

  /** The combined condition is `true` exactly when there are no clauses. */
  lemma ConditionTrueIff(conditions: seq<string>)
    requires Clauses(conditions)
    ensures ConditionString(conditions) == "true" <==> conditions == []
  {
    if conditions != [] {
      var r := ConditionString(conditions);
      assert r[0] == conditions[0][0];
      assert "true"[0] == 't';
    }
  }

  /** Two clauses are joined by `" and "`, the first one in front. */
  lemma ConditionPair(a: string, b: string)
    ensures ConditionString([a, b]) == a + And + b
  {
    assert [a, b][1..] == [b];
    assert Join([b], And) == b;
    assert Join([a, b], And) == a + And + Join([b], And);
  }

  /** The subject and sender clauses for the filters that are given, subject first. */
  function KeywordClauses(subjectKeyword: Option<string>, sender: Option<string>): (cs: seq<string>)
    ensures |cs| == (if Provided(subjectKeyword) then 1 else 0) + (if Provided(sender) then 1 else 0)
    ensures Clauses(cs)
  {
    (if Provided(subjectKeyword) then [SubjectClause(subjectKeyword.value)] else [])
    + (if Provided(sender) then [SenderClause(sender.value)] else [])
  }

  /** The appending loop-free builder that `update_email_status` and `manage_trash` run. */
  method BuildKeywordConditions(subjectKeyword: Option<string>, sender: Option<string>) returns (conditions: seq<string>)
    ensures conditions == KeywordClauses(subjectKeyword, sender)
  {
    conditions := [];
    if Provided(subjectKeyword) {
      conditions := conditions + [SubjectClause(subjectKeyword.value)];
    }
    if Provided(sender) {
      conditions := conditions + [SenderClause(sender.value)];
    }
  }

  /** The condition the subject/sender filters give: `true` iff neither is given, otherwise the
      given clauses with the subject clause before the sender clause. */
  function KeywordCondition(subjectKeyword: Option<string>, sender: Option<string>): (r: string)
    ensures r == "true" <==> !Provided(subjectKeyword) && !Provided(sender)
    ensures Provided(subjectKeyword) && !Provided(sender) ==> r == SubjectClause(subjectKeyword.value)
    ensures !Provided(subjectKeyword) && Provided(sender) ==> r == SenderClause(sender.value)
    ensures Provided(subjectKeyword) && Provided(sender)
        ==> r == SubjectClause(subjectKeyword.value) + And + SenderClause(sender.value)
  {
    var cs := KeywordClauses(subjectKeyword, sender);
    ConditionTrueIff(cs);
    if Provided(subjectKeyword) && Provided(sender) then
      ConditionPair(SubjectClause(subjectKeyword.value), SenderClause(sender.value));
      ConditionString(cs)
    else
      ConditionString(cs)
  }
}
