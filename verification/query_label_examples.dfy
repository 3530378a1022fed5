/**
 Worked examples of the query-label normaliser: the one in the source
 comment and one for each rule of the pattern. Each example names its query
 and states what the query becomes.
 */
module QueryLabelExamples {
  import opened QueryLabel

  /** The worked example in the comment above stripValues. */
  lemma DocumentedExample(query: string)
    requires query == "insert into Member " + "(id, name, email, " + "phone_number) "
                    + "values" + " " + "(" + "0, 'John Smith', " + "'john.smith@" + "mailinator.com', " + "'2125551212'" + ")"
    ensures StripValues(query) == "insert into Member " + "(id, name, email, " + "phone_number) " + "values (...)"
  {
    var prefix := "insert into Member " + "(id, name, email, " + "phone_number) ";
    var id, user, host, phone := "0, 'John Smith', ", "'john.smith@", "mailinator.com', ", "'2125551212'";
    DocumentedQuerySplit(query);
    DocumentedPrefixPlain(prefix);
    DocumentedBodyPiece(id);
    DocumentedBodyPiece(user);
    DocumentedBodyPiece(host);
    DocumentedBodyPiece(phone);
    BodyJoin(id, user);
    BodyJoin(id + user, host);
    BodyJoin(id + user + host, phone);
    StripPlainThenClause(prefix, " ", id + user + host + phone, "");
    assert StripValues("") == "";
  }

  /** The match is lazy: it stops at the first ')' and the rest is kept verbatim. */
  lemma NonGreedyExample(query: string)
    requires query == "values (a, (b)) x"
    ensures StripValues(query) == "values (...)) x"
  {
    var rest := ") x";
    NonGreedyQuerySplit(query);
    StripPlainPrefix(rest, "");
    assert StripValues(rest) == rest;
    StripClause(" ", "a, (b", rest);
  }

  /** Every clause is collapsed, each at its own first ')'. */
  lemma TwoClausesExample(query: string)
    requires query == "insert into T " + "values (1)" + "; insert into U " + "values (2)"
    ensures StripValues(query) == "insert into T " + "values (...)" + "; insert into U " + "values (...)"
  {
    var second := "; insert into U " + (ValuesClause(" ", "2") + "");
    TwoClausesQuerySplit(query);
    StripPlainThenClause("; insert into U ", " ", "2", "");
    assert StripValues("") == "";
    StripPlainThenClause("insert into T ", " ", "1", second);
  }

  /** Matching is case-sensitive: an upper-case VALUES clause is left alone. */
  lemma UpperCaseExample(query: string)
    requires query == "INSERT INTO T VALUES (1)"
    ensures StripValues(query) == query
  {
    StripPlainPrefix(query, "");
    assert query + "" == query;
  }

  /** `\s*` may span a line break between "values" and '('. */
  lemma LineBreakBeforeParenExample(query: string)
    requires query == "values\n(1)"
    ensures StripValues(query) == "values (...)"
  {
    StripClause("\n", "1", "");
    assert StripValues("") == "";
    assert query == ValuesClause("\n", "1") + "";
  }

  /** A line break inside the parentheses prevents the match at that position. */
  lemma LineBreakInsideParenExample(query: string)
    requires query == "values (1\n)"
    ensures StripValues(query) == query
  {
    assert '\n' in "1\n";
    NoMatchAcrossLine(" ", "1\n", ")");
    assert query == Keyword + " " + "(" + "1\n" + ")";
    StripPlainPrefix(query[1..], "");
    assert query[1..] + "" == query[1..];
    assert [query[0]] + query[1..] == query;
  }

  /** Each example query, read as plain text around its `values` clauses. */

  lemma DocumentedQuerySplit(query: string)
    requires query == "insert into Member " + "(id, name, email, " + "phone_number) "
                    + "values" + " " + "(" + "0, 'John Smith', " + "'john.smith@" + "mailinator.com', " + "'2125551212'" + ")"
    ensures query == ("insert into Member " + "(id, name, email, " + "phone_number) ")
                   + (ValuesClause(" ", "0, 'John Smith', " + "'john.smith@" + "mailinator.com', " + "'2125551212'") + "")
  {
  }

  lemma DocumentedPrefixPlain(prefix: string)
    requires prefix == "insert into Member " + "(id, name, email, " + "phone_number) "
    ensures 'v' !in prefix
  {
  }

  /** Each value of the example's list, taken alone, may stand inside a clause. */
  lemma DocumentedBodyPiece(t: string)
    requires t == "0, 'John Smith', " || t == "'john.smith@" || t == "mailinator.com', " || t == "'2125551212'"
    ensures BodyText(t)
  {
  }

  /** Text that may stand between the parentheses of a clause: no ')' and no line terminator. */
  predicate BodyText(t: string) {
    ')' !in t && forall c | c in t :: !IsLineTerminator(c)
  }

  /** Two pieces fit for a clause body join into text fit for a clause body. */
  lemma BodyJoin(a: string, b: string)
    requires BodyText(a) && BodyText(b)
    ensures BodyText(a + b)
  {
  }

  lemma NonGreedyQuerySplit(query: string)
    requires query == "values (a, (b)) x"
    ensures query == ValuesClause(" ", "a, (b") + ") x"
  {
  }

  lemma TwoClausesQuerySplit(query: string)
    requires query == "insert into T " + "values (1)" + "; insert into U " + "values (2)"
    ensures query == "insert into T " + (ValuesClause(" ", "1") + ("; insert into U " + (ValuesClause(" ", "2") + "")))
  {
  }
}
