/** The SQL text rewriting of backend/config/database.js: the controllers write
    MySQL-style `?` placeholders and `convertPlaceholders` turns the k-th one into
    the Postgres placeholder `$k` before the text reaches the driver. The pool,
    connections and transactions are not part of this module. */
module Database {
  import opened Strings

  /** The rewriting as a specification: `next` is the number the next '?' gets. */
  function Rewrite(sql: string, next: nat): string
    decreases |sql|
  {
    if sql == [] then []
    else if sql[0] == '?' then "$" + NatToString(next) + Rewrite(sql[1..], next + 1)
    else [sql[0]] + Rewrite(sql[1..], next)
  }

  /** `sql.replace(/\?/g, () => { i += 1; return '$' + i; })` with `let i = 0`:
      one pass over the text with a counter that starts at 0 on every call. */
  method ConvertPlaceholders(sql: string) returns (text: string)
    ensures text == Rewrite(sql, 1)
  {
    var i := 0;
    var pos := 0;
    text := "";
    while pos < |sql|
      invariant 0 <= pos <= |sql|
      invariant i == CountChar(sql[..pos], '?')
      invariant text + Rewrite(sql[pos..], i + 1) == Rewrite(sql, 1)
    {
      RewriteStep(sql, pos, i + 1);
      assert sql[..pos + 1] == sql[..pos] + [sql[pos]];
      CountCharAppend(sql[..pos], [sql[pos]], '?');
      ghost var done := text;
      var piece;
      if sql[pos] == '?' {
        i := i + 1;
        piece := "$" + NatToString(i);
      } else {
        piece := [sql[pos]];
      }
      text := text + piece;
      assert text + Rewrite(sql[pos + 1..], i + 1) == done + (piece + Rewrite(sql[pos + 1..], i + 1));
      pos := pos + 1;
    }
    assert sql[pos..] == [];
  }

  /** One step of the rewriting, at position pos. */
  lemma RewriteStep(sql: string, pos: nat, next: nat)
    requires pos < |sql|
    ensures Rewrite(sql[pos..], next) ==
      if sql[pos] == '?' then ("$" + NatToString(next)) + Rewrite(sql[pos + 1..], next + 1)
      else [sql[pos]] + Rewrite(sql[pos + 1..], next)
  {
    assert sql[pos..][1..] == sql[pos + 1..];
  }

  /** Rewriting a concatenation rewrites each part, the second one numbered on
      from where the first stopped. */
  lemma {:induction false} RewriteAppend(a: string, b: string, next: nat)
    ensures Rewrite(a + b, next) == Rewrite(a, next) + Rewrite(b, next + CountChar(a, '?'))
    decreases |a|
  {
    if a == [] {
      assert a + b == b;
    } else {
      assert (a + b)[1..] == a[1..] + b;
      RewriteAppend(a[1..], b, if a[0] == '?' then next + 1 else next);
    }
  }

  /** The k-th '?' from the left (k counted from 1) becomes "$k": writing the
      text as `before + "?" + after`, the '?' turns into the number one past the
      placeholders in `before`. */
  lemma PlaceholderNumbering(before: string, after: string)
    ensures Rewrite(before + "?" + after, 1) ==
      Rewrite(before, 1) + "$" + NatToString(CountChar(before, '?') + 1)
      + Rewrite(after, CountChar(before, '?') + 2)
  {
    var k := CountChar(before, '?');
    assert before + "?" + after == before + ("?" + after);
    RewriteAppend(before, "?" + after, 1);
    assert ("?" + after)[0] == '?' && ("?" + after)[1..] == after;
    assert Rewrite("?" + after, k + 1) == "$" + NatToString(k + 1) + Rewrite(after, k + 2);
  }

  /** Every other character is kept, in place and in order. */
  lemma OtherCharactersKept(before: string, c: char, after: string)
    requires c != '?'
    ensures Rewrite(before + [c] + after, 1) ==
      Rewrite(before, 1) + [c] + Rewrite(after, CountChar(before, '?') + 1)
  {
    assert before + [c] + after == before + ([c] + after);
    RewriteAppend(before, [c] + after, 1);
    assert ([c] + after)[0] == c && ([c] + after)[1..] == after;
  }

  /** A text without '?' comes back unchanged. */
  lemma {:induction false} NoPlaceholderUnchanged(sql: string, next: nat)
    requires '?' !in sql
    ensures Rewrite(sql, next) == sql
    decreases |sql|
  {
    if sql != [] {
      assert sql[0] in sql;
      NoPlaceholderUnchanged(sql[1..], next);
      assert [sql[0]] + sql[1..] == sql;
    }
  }

  /** The result holds no '?' at all. */
  lemma {:induction false} NoPlaceholderLeft(sql: string, next: nat)
    ensures '?' !in Rewrite(sql, next)
    decreases |sql|
  {
    if sql != [] {
      NoPlaceholderLeft(sql[1..], if sql[0] == '?' then next + 1 else next);
      if sql[0] == '?' {
        NatToStringDigits(next);
        var digits := NatToString(next);
        assert forall k | 0 <= k < |digits| :: digits[k] != '?';
      }
    }
  }

  /** Each '?' adds exactly one '$', so the rewritten text holds as many more '$'
      as the original held placeholders. */
  lemma {:induction false} DollarCount(sql: string, next: nat)
    ensures CountChar(Rewrite(sql, next), '$') == CountChar(sql, '$') + CountChar(sql, '?')
    decreases |sql|
  {
    if sql != [] {
      var n := if sql[0] == '?' then next + 1 else next;
      DollarCount(sql[1..], n);
      if sql[0] == '?' {
        NatToStringDigits(next);
        var digits := NatToString(next);
        assert forall k | 0 <= k < |digits| :: digits[k] != '$';
        CountCharZero(digits, '$');
        CountCharAppend("$" + digits, Rewrite(sql[1..], n), '$');
        CountCharAppend("$", digits, '$');
      } else {
        CountCharAppend([sql[0]], Rewrite(sql[1..], n), '$');
      }
    }
  }

  /** The regular expression is global and knows nothing of SQL quoting, so a
      '?' inside a string literal is rewritten too. */
  lemma QuotedPlaceholderRewritten()
    ensures Rewrite("a = '?'", 1) == "a = '$1'"
  {
    var before, after := "a = '", "'";
    assert "a = '?'" == before + "?" + after;
    PlaceholderNumbering(before, after);
    NoPlaceholderUnchanged(before, 1);
    NoPlaceholderUnchanged(after, 2);
    assert CountChar(before, '?') == 0;
    assert NatToString(1) == "1";
  }

  /** A bound statement parameter. */
  datatype SqlValue = SqlText(text: string) | SqlInt(n: int) | SqlBool(b: bool) | SqlTime(ms: int) | SqlNull

  /** What the driver receives for one statement. */
  datatype Statement = Statement(text: string, params: seq<SqlValue>)

  /** `execute(sql, params = [])`: the SQL text is rewritten and the parameters go
      through untouched. */
  method Execute(sql: string, params: seq<SqlValue>) returns (st: Statement)
    ensures st.params == params
    ensures st.text == Rewrite(sql, 1)
    ensures '?' !in st.text
  {
    var text := ConvertPlaceholders(sql);
    NoPlaceholderLeft(sql, 1);
    st := Statement(text, params);
  }
}
