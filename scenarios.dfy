/**
 * Concrete statements the generator produces for small queries.
 */
module Scenarios {
  import opened PhpStrings
  import opened QueryModel
  import opened Clauses

  /** One table and a WHERE condition. */
  lemma UsersOverEighteen()
    ensures Render(Query(Info(["*"], [FromInfo("users", "")], [], [], [], Fields([]), None), "age > 18", ""))
            == "SELECT * FROM users WHERE age > 18"
  {
    UsersUntrimmed();
    UsersTextTrimmed();
  }

  lemma UsersTextTrimmed()
    ensures Trim("SELECT * FROM users WHERE age > 18") == "SELECT * FROM users WHERE age > 18"
  {
    var u := "SELECT * FROM users WHERE age > 18";
    assert u[0] == 'S' && u[|u| - 1] == '8';
    TrimLeftNoop(u);
    TrimRightNoop(u);
  }

  lemma UsersUntrimmed()
    ensures Untrimmed(Query(Info(["*"], [FromInfo("users", "")], [], [], [], Fields([]), None), "age > 18", ""))
            == "SELECT * FROM users WHERE age > 18"
  {
    UsersFrom();
    assert JoinClauses([]) == [];
    assert "SELECT " + "*" + " FROM users" + "" + " WHERE age > 18" + "" + "" + ""
           == "SELECT * FROM users WHERE age > 18" by {
      assert "SELECT " + "*" + " FROM users" == "SELECT * FROM users";
    }
  }

  lemma UsersFrom()
    ensures FromPart([FromInfo("users", "")]) == " FROM users"
  {
    var items := FromItems([FromInfo("users", "")]);
    assert |items| == 1 && items[0] == "users";
    assert items == ["users"];
  }

  /** Two joins come out in insertion order, their types upper-cased. */
  lemma TwoJoinsInOrder()
    ensures JoinPart([JoinInfo("left", "b", "", "a.id=b.a_id"), JoinInfo("inner", "c", "", "b.id=c.b_id")])
            == " LEFT JOIN b ON a.id=b.a_id INNER JOIN c ON b.id=c.b_id"
  {
    var j1, j2 := JoinInfo("left", "b", "", "a.id=b.a_id"), JoinInfo("inner", "c", "", "b.id=c.b_id");
    LeftJoinB();
    InnerJoinC();
    assert JoinClauses([]) == [];
    JoinPartAppend([], j1);
    assert [j1] + [j2] == [j1, j2];
    JoinPartAppend([j1], j2);
    JoinTexts();
  }

  /** The two join clauses side by side. */
  lemma JoinTexts()
    ensures "" + " LEFT JOIN b ON a.id=b.a_id" + " INNER JOIN c ON b.id=c.b_id"
            == " LEFT JOIN b ON a.id=b.a_id INNER JOIN c ON b.id=c.b_id"
  {
  }

  lemma LeftJoinB()
    ensures JoinSql(JoinInfo("left", "b", "", "a.id=b.a_id")) == " LEFT JOIN b ON a.id=b.a_id"
  {
    UpperWord("left", "LEFT");
    UnaliasedJoin(JoinInfo("left", "b", "", "a.id=b.a_id"), "LEFT");
    LeftJoinText();
  }

  lemma LeftJoinText()
    ensures " " + "LEFT" + " JOIN " + "b" + " ON " + "a.id=b.a_id" == " LEFT JOIN b ON a.id=b.a_id"
  {
  }

  lemma InnerJoinC()
    ensures JoinSql(JoinInfo("inner", "c", "", "b.id=c.b_id")) == " INNER JOIN c ON b.id=c.b_id"
  {
    UpperWord("inner", "INNER");
    UnaliasedJoin(JoinInfo("inner", "c", "", "b.id=c.b_id"), "INNER");
    InnerJoinText();
  }

  lemma InnerJoinText()
    ensures " " + "INNER" + " JOIN " + "c" + " ON " + "b.id=c.b_id" == " INNER JOIN c ON b.id=c.b_id"
  {
  }

  /** A join without an alias, whose type renders as `k`. */
  lemma UnaliasedJoin(j: JoinInfo, k: string)
    requires JoinKeyword(j.joinType) == k && j.alias == ""
    ensures JoinSql(j) == " " + k + " JOIN " + j.table + " ON " + j.on
  {
  }

  /** A join type written in lower case renders as its upper-case form. */
  lemma UpperWord(w: string, u: string)
    requires |w| == |u| && forall i :: 0 <= i < |w| ==> 'a' <= w[i] <= 'z'
    requires forall i :: 0 <= i < |w| ==> u[i] as int == w[i] as int - 'a' as int + 'A' as int
    ensures JoinKeyword(w) == u
  {
    assert Upper(w) == u;
    if u != [] {
      assert !IsPhpSpace(u[0]) && !IsPhpSpace(u[|u| - 1]);
    }
    TrimLeftNoop(u);
    TrimRightNoop(u);
  }

  /** A mapping with an empty and a non-empty direction. */
  lemma OrderByMapping()
    ensures OrderByPart(Fields([OrderEntry("x", ""), OrderEntry("y", "DESC")])) == " ORDER BY x, y DESC"
  {
    var items := OrderItems([OrderEntry("x", ""), OrderEntry("y", "DESC")]);
    assert |items| == 2 && items[0] == "x" && items[1] == "y DESC";
    assert items == ["x", "y DESC"];
    assert ["x", "y DESC"][..1] == ["x"];
  }

  /** Offset before length. */
  lemma LimitTenTwenty()
    ensures LimitPart(Some(Limit(10, 20))) == " LIMIT 10, 20"
  {
    assert NatToString(10) == "10";
    assert NatToString(20) == "20";
  }

  /** HAVING follows the grouping list when both are present. */
  lemma GroupByWithHaving(c: Condition)
    ensures GroupByPart(["x"], [], "COUNT(*) > 1") == " GROUP BY x"
    ensures GroupByPart(["x"], [c], "COUNT(*) > 1") == " GROUP BY x HAVING COUNT(*) > 1"
    ensures GroupByPart([], [c], "COUNT(*) > 1") == ""
  {
  }
}
