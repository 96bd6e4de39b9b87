/** The spend reports of src/storage/billing-repo.ts: the total of a period and the report by agent key. */
module SpendReport {
  import opened Wrappers
  import opened Cardinality

  /** A row of billing_attempts, as far as the reports read it; `None` is NULL. */
  datatype Attempt = Attempt(executionId: string, agent: bool, day: int, tokenId: Option<nat>,
                             prompt: Option<nat>, completion: Option<nat>, cached: Option<nat>, reasoning: Option<nat>,
                             fromResponse: bool, costUsd: Option<real>, costEst: Option<real>)

  datatype Token = Token(id: nat, revoked: bool)

  /** SPEND_COLUMNS without the count of executions. */
  datatype Totals = Totals(attempts: nat, input: nat, output: nat, cached: nat, reasoning: nat,
                           actual: real, approx: real, missing: nat, approxRows: nat)

  const ZERO := Totals(0, 0, 0, 0, 0, 0.0, 0.0, 0, 0)

  function Plus(a: Totals, b: Totals): Totals {
    Totals(a.attempts + b.attempts, a.input + b.input, a.output + b.output, a.cached + b.cached,
           a.reasoning + b.reasoning, a.actual + b.actual, a.approx + b.approx, a.missing + b.missing,
           a.approxRows + b.approxRows)
  }

  function OrZero(n: Option<nat>): nat {
    if n.Some? then n.value else 0
  }

  function MoneyOrZero(x: Option<real>): real {
    if x.Some? then x.value else 0.0
  }

  /** What one attempt adds to each column. */
  function One(a: Attempt): Totals {
    Totals(1, OrZero(a.prompt), OrZero(a.completion), OrZero(a.cached), OrZero(a.reasoning),
           if a.fromResponse then MoneyOrZero(a.costUsd) else 0.0,
           if a.fromResponse then 0.0 else MoneyOrZero(a.costEst),
           if !a.fromResponse && a.costEst.None? then 1 else 0,
           if !a.fromResponse && a.costEst.Some? then 1 else 0)
  }

  /** The aggregates over a list of rows. */
  function Columns(rows: seq<Attempt>): Totals {
    if rows == [] then ZERO else Plus(Columns(rows[..|rows| - 1]), One(rows[|rows| - 1]))
  }

  /** COUNT(DISTINCT execution_id) is the size of this. */
  function Executions(rows: seq<Attempt>): set<string> {
    set a | a in rows :: a.executionId
  }

  /** The rows of the agent contour in a period. */
  function InRange(ledger: seq<Attempt>, from: int, to: int): seq<Attempt> {
    if ledger == [] then []
    else
      var last := ledger[|ledger| - 1];
      InRange(ledger[..|ledger| - 1], from, to) + if last.agent && from <= last.day <= to then [last] else []
  }

  /** The rows whose token is one of `keys`; NULL is a key of its own. */
  function Of(rows: seq<Attempt>, keys: set<Option<nat>>): seq<Attempt> {
    if rows == [] then []
    else Of(rows[..|rows| - 1], keys) + if rows[|rows| - 1].tokenId in keys then [rows[|rows| - 1]] else []
  }

  /** The keys of GROUP BY token_id, each once. */
  function Keys(rows: seq<Attempt>): (ks: seq<Option<nat>>)
    ensures forall i, j :: 0 <= i < j < |ks| ==> ks[i] != ks[j]
    ensures forall k :: k in ks <==> exists a :: a in rows && a.tokenId == k
  {
    if rows == [] then []
    else
      var before, last := Keys(rows[..|rows| - 1]), rows[|rows| - 1].tokenId;
      assert forall a :: a in rows <==> a in rows[..|rows| - 1] || a == rows[|rows| - 1];
      assert rows[|rows| - 1] in rows;
      if last in before then before else before + [last]
  }

  /** The group of one key in the common table expression `s`. */
  function Group(rows: seq<Attempt>, key: Option<nat>): seq<Attempt> {
    Of(rows, {key})
  }

  /** A line of the report; without spend its columns are NULL. */
  datatype Line = Line(tokenId: Option<nat>, known: bool, spend: Option<Totals>, executions: nat)

  function TokenLine(t: Token, rows: seq<Attempt>): Line {
    if Some(t.id) in Keys(rows)
    then Line(Some(t.id), true, Some(Columns(Group(rows, Some(t.id)))), |Executions(Group(rows, Some(t.id)))|)
    else Line(Some(t.id), true, None, 0)
  }

  /** The first half of the union: the table of tokens, of the revoked ones only those with spend. */
  function TokenLines(tokens: seq<Token>, rows: seq<Attempt>): seq<Line> {
    if tokens == [] then []
    else
      var last := tokens[|tokens| - 1];
      TokenLines(tokens[..|tokens| - 1], rows)
      + if !last.revoked || Some(last.id) in Keys(rows) then [TokenLine(last, rows)] else []
  }

  predicate Known(tokens: seq<Token>, key: Option<nat>) {
    key.Some? && exists t :: t in tokens && t.id == key.value
  }

  /** The second half: the groups without a token in the table, and the one with a NULL token. */
  function OtherLines(keys: seq<Option<nat>>, tokens: seq<Token>, rows: seq<Attempt>): seq<Line> {
    if keys == [] then []
    else
      var last := keys[|keys| - 1];
      OtherLines(keys[..|keys| - 1], tokens, rows)
      + if Known(tokens, last) then []
        else [Line(last, false, Some(Columns(Group(rows, last))), |Executions(Group(rows, last))|)]
  }

  /** spendByAgentToken, up to the order of its lines. */
  function SpendByAgentToken(tokens: seq<Token>, ledger: seq<Attempt>, from: int, to: int): seq<Line> {
    var rows := InRange(ledger, from, to);
    TokenLines(tokens, rows) + OtherLines(Keys(rows), tokens, rows)
  }

  function SumOf(lines: seq<Line>): Totals {
    if lines == [] then ZERO
    else
      var last := lines[|lines| - 1];
      Plus(SumOf(lines[..|lines| - 1]), if last.spend.Some? then last.spend.value else ZERO)
  }

  function ExecutionSum(lines: seq<Line>): nat {
    if lines == [] then 0 else ExecutionSum(lines[..|lines| - 1]) + lines[|lines| - 1].executions
  }

  predicate DistinctIds(tokens: seq<Token>) {
    forall i, j :: 0 <= i < j < |tokens| ==> tokens[i].id != tokens[j].id
  }

  function Ids(tokens: seq<Token>): set<Option<nat>> {
    set t | t in tokens :: Some(t.id)
  }

  lemma PlusRearranges(a: Totals, b: Totals, c: Totals)
    ensures Plus(Plus(a, b), c) == Plus(a, Plus(b, c)) == Plus(Plus(a, c), b)
    ensures Plus(a, ZERO) == a == Plus(ZERO, a)
  {
  }

  lemma OneMoreLine(lines: seq<Line>, l: Line)
    ensures SumOf(lines + [l]) == Plus(SumOf(lines), if l.spend.Some? then l.spend.value else ZERO)
    ensures ExecutionSum(lines + [l]) == ExecutionSum(lines) + l.executions
  {
    assert (lines + [l])[..|lines|] == lines;
  }

  lemma {:induction false} SumOfAppend(a: seq<Line>, b: seq<Line>)
    ensures SumOf(a + b) == Plus(SumOf(a), SumOf(b)) && ExecutionSum(a + b) == ExecutionSum(a) + ExecutionSum(b)
  {
    hide Plus, SumOf, ExecutionSum;
    if b == [] {
      assert a + b == a;
      NoLines();
      PlusRearranges(SumOf(a), ZERO, ZERO);
    } else {
      var before, last := b[..|b| - 1], b[|b| - 1];
      assert a + b == a + before + [last] && b == before + [last];
      SumOfAppend(a, before);
      OneMoreLine(a + before, last);
      OneMoreLine(before, last);
      PlusRearranges(SumOf(a), SumOf(before), if last.spend.Some? then last.spend.value else ZERO);
    }
  }

  lemma NoLines()
    ensures SumOf([]) == ZERO && ExecutionSum([]) == 0
  {
  }

  /** Rows divide between two disjoint sets of keys. */
  lemma {:induction false} OfBoth(rows: seq<Attempt>, a: set<Option<nat>>, b: set<Option<nat>>)
    requires a !! b
    ensures Columns(Of(rows, a + b)) == Plus(Columns(Of(rows, a)), Columns(Of(rows, b)))
    ensures Executions(Of(rows, a + b)) == Executions(Of(rows, a)) + Executions(Of(rows, b))
  {
    hide Plus, One, Executions, Columns;
    if rows == [] {
      NoColumns();
      PlusRearranges(ZERO, ZERO, ZERO);
    } else {
      var before, last := rows[..|rows| - 1], rows[|rows| - 1];
      OfBoth(before, a, b);
      OneMore(Of(before, a + b), last);
      OneMore(Of(before, a), last);
      OneMore(Of(before, b), last);
      PlusRearranges(Columns(Of(before, a)), Columns(Of(before, b)), One(last));
      assert forall xs: seq<Attempt> :: xs + [] == xs;
    }
  }

  lemma NoColumns()
    ensures Columns([]) == ZERO && Executions([]) == {}
  {
  }

  lemma OneMore(rows: seq<Attempt>, a: Attempt)
    ensures Columns(rows + [a]) == Plus(Columns(rows), One(a))
    ensures Executions(rows + [a]) == Executions(rows) + {a.executionId}
  {
    assert (rows + [a])[..|rows|] == rows;
  }

  /** A key without rows has an empty group. */
  lemma {:induction false} NoRows(rows: seq<Attempt>, keys: set<Option<nat>>)
    requires forall a :: a in rows ==> a.tokenId !in keys
    ensures Of(rows, keys) == []
  {
    if rows != [] {
      assert rows[|rows| - 1] in rows;
      NoRows(rows[..|rows| - 1], keys);
    }
  }

  lemma {:induction false} AllRows(rows: seq<Attempt>, keys: set<Option<nat>>)
    requires forall a :: a in rows ==> a.tokenId in keys
    ensures Of(rows, keys) == rows
  {
    if rows != [] {
      assert rows[|rows| - 1] in rows;
      AllRows(rows[..|rows| - 1], keys);
    }
  }

  /** The keys whose lines have been added up, and what those lines add up to. */
  predicate AddsUp(lines: seq<Line>, rows: seq<Attempt>, keys: set<Option<nat>>) {
    && SumOf(lines) == Columns(Of(rows, keys))
    && ExecutionSum(lines) >= |Executions(Of(rows, keys))|
    && (ExecutionSum(lines) == |Executions(Of(rows, keys))| <==> OneTokenEach(Of(rows, keys)))
  }

  /** All attempts of an execution have the same token. */
  predicate OneTokenEach(rows: seq<Attempt>) {
    forall a, b :: a in rows && b in rows && a.executionId == b.executionId ==> a.tokenId == b.tokenId
  }

  lemma {:induction false} OfMembers(rows: seq<Attempt>, keys: set<Option<nat>>)
    ensures forall a :: a in Of(rows, keys) <==> a in rows && a.tokenId in keys
  {
    if rows != [] {
      OfMembers(rows[..|rows| - 1], keys);
      assert forall a :: a in rows <==> a in rows[..|rows| - 1] || a == rows[|rows| - 1];
    }
  }

  /** Executions add up exactly when the next key shares none with those before. */
  lemma SharedExecution(rows: seq<Attempt>, keys: set<Option<nat>>, key: Option<nat>)
    requires key !in keys
    ensures OneTokenEach(Of(rows, keys + {key})) <==>
            OneTokenEach(Of(rows, keys)) && Executions(Of(rows, keys)) * Executions(Group(rows, key)) == {}
  {
    OfMembers(rows, keys);
    OfMembers(rows, {key});
    OfMembers(rows, keys + {key});
    var some, group := Of(rows, keys), Group(rows, key);
    if id :| id in Executions(some) * Executions(group) {
      var a :| a in some && a.executionId == id;
      var b :| b in group && b.executionId == id;
      assert a in Of(rows, keys + {key}) && b in Of(rows, keys + {key}) && a.tokenId != b.tokenId;
    }
    if OneTokenEach(some) && Executions(some) * Executions(group) == {} {
      forall a, b | a in Of(rows, keys + {key}) && b in Of(rows, keys + {key}) && a.executionId == b.executionId
        ensures a.tokenId == b.tokenId
      {
        assert (a in some ==> a.executionId in Executions(some)) && (b in some ==> b.executionId in Executions(some));
        assert a.executionId !in Executions(some) * Executions(group);
        assert (a in group ==> a.executionId in Executions(group)) && (b in group ==> b.executionId in Executions(group));
      }
    }
  }

  /** One more key's line. */
  lemma AddsUpMore(lines: seq<Line>, rows: seq<Attempt>, keys: set<Option<nat>>, key: Option<nat>, line: Line)
    requires AddsUp(lines, rows, keys) && key !in keys
    requires (if line.spend.Some? then line.spend.value else ZERO) == Columns(Group(rows, key))
    requires line.executions == |Executions(Group(rows, key))|
    ensures AddsUp(lines + [line], rows, keys + {key})
  {
    hide Plus, OneTokenEach, Columns, Executions, Of, SumOf, ExecutionSum;
    OneMoreLine(lines, line);
    OfBoth(rows, keys, {key});
    SharedExecution(rows, keys, key);
    UnionSize(Executions(Of(rows, keys)), Executions(Group(rows, key)));
  }

  /** A key that has no line has no spend either. */
  lemma AddsUpWithout(lines: seq<Line>, rows: seq<Attempt>, keys: set<Option<nat>>, key: Option<nat>)
    requires AddsUp(lines, rows, keys) && key !in keys && key !in Keys(rows)
    ensures AddsUp(lines, rows, keys + {key}) && Group(rows, key) == []
  {
    hide Plus, OneTokenEach, Columns, Executions, Of, SumOf, ExecutionSum;
    NoRows(rows, {key});
    OfBoth(rows, keys, {key});
    SharedExecution(rows, keys, key);
    NoColumns();
    PlusRearranges(Columns(Of(rows, keys)), ZERO, ZERO);
  }

  lemma {:induction false} TokenLinesAddUp(tokens: seq<Token>, rows: seq<Attempt>)
    requires DistinctIds(tokens)
    ensures AddsUp(TokenLines(tokens, rows), rows, Ids(tokens))
  {
    hide AddsUp, Columns, Executions, Of;
    if tokens == [] {
      NothingAddsUp(rows);
      assert Ids(tokens) == {};
    } else {
      var before, last := tokens[..|tokens| - 1], tokens[|tokens| - 1];
      TokenLinesAddUp(before, rows);
      assert Ids(tokens) == Ids(before) + {Some(last.id)};
      if Some(last.id) in Keys(rows) {
        AddsUpMore(TokenLines(before, rows), rows, Ids(before), Some(last.id), TokenLine(last, rows));
      } else {
        AddsUpWithout(TokenLines(before, rows), rows, Ids(before), Some(last.id));
        NoColumns();
        if !last.revoked {
          AddsUpMore(TokenLines(before, rows), rows, Ids(before), Some(last.id), TokenLine(last, rows));
        } else {
          assert TokenLines(before, rows) + [] == TokenLines(before, rows);
        }
      }
    }
  }

  lemma NothingAddsUp(rows: seq<Attempt>)
    ensures AddsUp([], rows, {})
  {
    NoRows(rows, {});
  }

  function Unknown(keys: seq<Option<nat>>, tokens: seq<Token>): set<Option<nat>> {
    set k | k in keys && !Known(tokens, k)
  }

  lemma {:induction false} OtherLinesAddUp(keys: seq<Option<nat>>, tokens: seq<Token>, rows: seq<Attempt>, lines: seq<Line>)
    requires forall i, j :: 0 <= i < j < |keys| ==> keys[i] != keys[j]
    requires AddsUp(lines, rows, Ids(tokens))
    ensures AddsUp(lines + OtherLines(keys, tokens, rows), rows, Ids(tokens) + Unknown(keys, tokens))
  {
    hide AddsUp, Columns, Executions, Of;
    if keys == [] {
      assert lines + [] == lines && Unknown(keys, tokens) == {} && Ids(tokens) + {} == Ids(tokens);
    } else {
      var before, last := keys[..|keys| - 1], keys[|keys| - 1];
      OtherLinesAddUp(before, tokens, rows, lines);
      var so := lines + OtherLines(before, tokens, rows);
      if Known(tokens, last) {
        assert Unknown(keys, tokens) == Unknown(before, tokens);
        assert OtherLines(before, tokens, rows) + [] == OtherLines(before, tokens, rows);
      } else {
        assert Unknown(keys, tokens) == Unknown(before, tokens) + {last};
        var line := Line(last, false, Some(Columns(Group(rows, last))), |Executions(Group(rows, last))|);
        AddsUpMore(so, rows, Ids(tokens) + Unknown(before, tokens), last, line);
        assert so + [line] == lines + (OtherLines(before, tokens, rows) + [line]);
        assert Ids(tokens) + Unknown(before, tokens) + {last} == Ids(tokens) + Unknown(keys, tokens);
      }
    }
  }

  lemma LinesCoverRows(tokens: seq<Token>, rows: seq<Attempt>)
    requires DistinctIds(tokens)
    ensures AddsUp(TokenLines(tokens, rows) + OtherLines(Keys(rows), tokens, rows), rows, Ids(tokens) + Unknown(Keys(rows), tokens))
    ensures Of(rows, Ids(tokens) + Unknown(Keys(rows), tokens)) == rows
  {
    TokenLinesAddUp(tokens, rows);
    OtherLinesAddUp(Keys(rows), tokens, rows, TokenLines(tokens, rows));
    var keys := Ids(tokens) + Unknown(Keys(rows), tokens);
    forall a | a in rows
      ensures a.tokenId in keys
    {
      assert a.tokenId in Keys(rows);
    }
    AllRows(rows, keys);
  }

  /**
   The lines of the report by key add up to the period's total, column by column, with NULL, unknown
   and revoked tokens.
   */
  lemma ReportAddsUpToTotal(tokens: seq<Token>, ledger: seq<Attempt>, from: int, to: int)
    requires DistinctIds(tokens)
    ensures SumOf(SpendByAgentToken(tokens, ledger, from, to)) == Columns(InRange(ledger, from, to))
  {
    LinesCoverRows(tokens, InRange(ledger, from, to));
  }

  /**
   The executions of the lines add up to the period's if and only if no execution has attempts under
   two tokens; otherwise the lines count more.
   */
  lemma ExecutionsAddUp(tokens: seq<Token>, ledger: seq<Attempt>, from: int, to: int)
    requires DistinctIds(tokens)
    ensures var lines, total := ExecutionSum(SpendByAgentToken(tokens, ledger, from, to)), |Executions(InRange(ledger, from, to))|;
            total <= lines && (total == lines <==> OneTokenEach(InRange(ledger, from, to)))
  {
    LinesCoverRows(tokens, InRange(ledger, from, to));
  }

  /** The period's rows are those of the agent contour from the first day to the last, each as often as in the ledger. */
  lemma {:induction false} InRangeExactly(ledger: seq<Attempt>, from: int, to: int, a: Attempt)
    ensures multiset(InRange(ledger, from, to))[a] == if a.agent && from <= a.day <= to then multiset(ledger)[a] else 0
  {
    if ledger != [] {
      var before, last := ledger[..|ledger| - 1], ledger[|ledger| - 1];
      InRangeExactly(before, from, to, a);
      assert ledger == before + [last];
    }
  }

  /** A group's rows are those of its keys, each as often as among the rows. */
  lemma {:induction false} OfExactly(rows: seq<Attempt>, keys: set<Option<nat>>, a: Attempt)
    ensures multiset(Of(rows, keys))[a] == if a.tokenId in keys then multiset(rows)[a] else 0
  {
    if rows != [] {
      var before, last := rows[..|rows| - 1], rows[|rows| - 1];
      OfExactly(before, keys, a);
      assert rows == before + [last];
    }
  }

  /** The line shows what its own key spent, NULL for nothing, and whether the table has that key. */
  predicate LineFits(l: Line, tokens: seq<Token>, rows: seq<Attempt>) {
    && l.known == Known(tokens, l.tokenId)
    && l.spend == (if l.tokenId in Keys(rows) then Some(Columns(Group(rows, l.tokenId))) else None)
    && l.executions == |Executions(Group(rows, l.tokenId))|
  }

  predicate LinesDiffer(lines: seq<Line>) {
    forall i, j :: 0 <= i < j < |lines| ==> lines[i].tokenId != lines[j].tokenId
  }

  predicate HasLine(lines: seq<Line>, key: Option<nat>) {
    exists i :: 0 <= i < |lines| && lines[i].tokenId == key
  }

  predicate TokenShown(tokens: seq<Token>, rows: seq<Attempt>, key: Option<nat>) {
    exists i :: 0 <= i < |tokens| && Some(tokens[i].id) == key && (!tokens[i].revoked || key in Keys(rows))
  }

  lemma LineMore(lines: seq<Line>, l: Line, tokens: seq<Token>, rows: seq<Attempt>)
    requires LinesDiffer(lines) && !HasLine(lines, l.tokenId) && LineFits(l, tokens, rows)
    requires forall i :: 0 <= i < |lines| ==> LineFits(lines[i], tokens, rows)
    ensures LinesDiffer(lines + [l]) && forall i :: 0 <= i < |lines| + 1 ==> LineFits((lines + [l])[i], tokens, rows)
    ensures forall key :: HasLine(lines + [l], key) <==> HasLine(lines, key) || key == l.tokenId
  {
    hide LineFits;
    forall key | HasLine(lines, key) || key == l.tokenId
      ensures HasLine(lines + [l], key)
    {
      if key == l.tokenId {
        assert (lines + [l])[|lines|].tokenId == key;
      } else {
        var i :| 0 <= i < |lines| && lines[i].tokenId == key;
        assert (lines + [l])[i].tokenId == key;
      }
    }
  }

  lemma {:induction false} TokenLinesFit(tokens: seq<Token>, n: nat, rows: seq<Attempt>)
    requires DistinctIds(tokens) && n <= |tokens|
    ensures var lines := TokenLines(tokens[..n], rows);
            && LinesDiffer(lines) && (forall i :: 0 <= i < |lines| ==> LineFits(lines[i], tokens, rows))
            && forall key :: HasLine(lines, key) <==> TokenShown(tokens[..n], rows, key)
  {
    if n > 0 {
      hide LineFits, LinesDiffer, HasLine, DistinctIds, TokenShown, TokenLine, Keys;
      TokenLinesFit(tokens, n - 1, rows);
      var before, t := TokenLines(tokens[..n - 1], rows), tokens[n - 1];
      assert tokens[..n][..n - 1] == tokens[..n - 1];
      ShownMore(tokens, n, rows);
      if !t.revoked || Some(t.id) in Keys(rows) {
        TokenLineFits(t, tokens, rows);
        LineMore(before, TokenLine(t, rows), tokens, rows);
      } else {
        assert before + [] == before;
      }
    }
  }

  lemma ShownMore(tokens: seq<Token>, n: nat, rows: seq<Attempt>)
    requires DistinctIds(tokens) && 0 < n <= |tokens|
    ensures var t := tokens[n - 1];
            && !TokenShown(tokens[..n - 1], rows, Some(t.id))
            && forall key :: TokenShown(tokens[..n], rows, key) <==>
                 TokenShown(tokens[..n - 1], rows, key) || (key == Some(t.id) && (!t.revoked || key in Keys(rows)))
  {
    hide Keys;
    forall key
      ensures TokenShown(tokens[..n], rows, key) <==>
              TokenShown(tokens[..n - 1], rows, key) || (key == Some(tokens[n - 1].id) && (!tokens[n - 1].revoked || key in Keys(rows)))
    {
      if TokenShown(tokens[..n - 1], rows, key) {
        var i :| 0 <= i < n - 1 && Some(tokens[..n - 1][i].id) == key && (!tokens[..n - 1][i].revoked || key in Keys(rows));
        assert tokens[..n][i] == tokens[..n - 1][i];
      }
      if key == Some(tokens[n - 1].id) && (!tokens[n - 1].revoked || key in Keys(rows)) {
        assert tokens[..n][n - 1] == tokens[n - 1];
      }
    }
  }

  lemma TokenLineFits(t: Token, tokens: seq<Token>, rows: seq<Attempt>)
    requires t in tokens
    ensures LineFits(TokenLine(t, rows), tokens, rows) && TokenLine(t, rows).tokenId == Some(t.id)
  {
    hide Columns, Executions, Of;
    if Some(t.id) !in Keys(rows) {
      NoRows(rows, {Some(t.id)});
      NoColumns();
    }
  }

  lemma {:induction false} OtherLinesFit(keys: seq<Option<nat>>, n: nat, tokens: seq<Token>, rows: seq<Attempt>, lines: seq<Line>)
    requires n <= |keys| && keys == Keys(rows)
    requires LinesDiffer(lines) && (forall i :: 0 <= i < |lines| ==> LineFits(lines[i], tokens, rows))
    requires forall key :: HasLine(lines, key) <==> TokenShown(tokens, rows, key)
    ensures var all := lines + OtherLines(keys[..n], tokens, rows);
            && LinesDiffer(all) && (forall i :: 0 <= i < |all| ==> LineFits(all[i], tokens, rows))
            && forall key :: HasLine(all, key) <==> TokenShown(tokens, rows, key) || (key in keys[..n] && !Known(tokens, key))
  {
    hide LinesDiffer, HasLine, TokenShown, Columns, Executions, Of, Keys;
    if n == 0 {
      assert lines + OtherLines(keys[..0], tokens, rows) == lines;
    } else {
      OtherLinesFit(keys, n - 1, tokens, rows, lines);
      var key, so := keys[n - 1], lines + OtherLines(keys[..n - 1], tokens, rows);
      assert keys[..n][..n - 1] == keys[..n - 1] && keys[..n] == keys[..n - 1] + [key];
      if Known(tokens, key) {
        assert lines + (OtherLines(keys[..n - 1], tokens, rows) + []) == so;
      } else {
        var line := Line(key, false, Some(Columns(Group(rows, key))), |Executions(Group(rows, key))|);
        assert so + [line] == lines + (OtherLines(keys[..n - 1], tokens, rows) + [line]);
        UnknownIsNotShown(tokens, rows, key);
        KeyIsNew(rows, n - 1);
        LineMore(so, line, tokens, rows);
      }
    }
  }

  lemma UnknownIsNotShown(tokens: seq<Token>, rows: seq<Attempt>, key: Option<nat>)
    requires !Known(tokens, key)
    ensures !TokenShown(tokens, rows, key)
  {
    hide Keys;
    forall i | 0 <= i < |tokens|
      ensures Some(tokens[i].id) != key
    {
      assert tokens[i] in tokens;
    }
  }

  lemma KeyIsNew(rows: seq<Attempt>, i: nat)
    requires i < |Keys(rows)|
    ensures Keys(rows)[i] !in Keys(rows)[..i]
  {
  }

  /**
   The lines of the report: one for each key with spend and each token in force, no other and none
   twice, each with the columns and the executions of its own rows.
   */
  lemma LinesExactly(tokens: seq<Token>, ledger: seq<Attempt>, from: int, to: int)
    requires DistinctIds(tokens)
    ensures var lines, rows := SpendByAgentToken(tokens, ledger, from, to), InRange(ledger, from, to);
            && LinesDiffer(lines) && (forall i :: 0 <= i < |lines| ==> LineFits(lines[i], tokens, rows))
            && forall key :: HasLine(lines, key) <==>
                 || (exists a :: a in rows && a.tokenId == key)
                 || (exists t :: t in tokens && !t.revoked && Some(t.id) == key)
  {
    hide LineFits, LinesDiffer, HasLine, TokenLines, OtherLines;
    var rows := InRange(ledger, from, to);
    TokenLinesFit(tokens, |tokens|, rows);
    assert tokens[..|tokens|] == tokens && Keys(rows)[..|Keys(rows)|] == Keys(rows);
    OtherLinesFit(Keys(rows), |Keys(rows)|, tokens, rows, TokenLines(tokens, rows));
    forall key
      ensures TokenShown(tokens, rows, key) || (key in Keys(rows) && !Known(tokens, key)) <==>
              key in Keys(rows) || exists t :: t in tokens && !t.revoked && Some(t.id) == key
    {
      ShownOrUnknown(tokens, rows, key);
    }
  }

  lemma ShownOrUnknown(tokens: seq<Token>, rows: seq<Attempt>, key: Option<nat>)
    ensures TokenShown(tokens, rows, key) || (key in Keys(rows) && !Known(tokens, key)) <==>
            key in Keys(rows) || exists t :: t in tokens && !t.revoked && Some(t.id) == key
  {
    hide Keys;
    if t :| t in tokens && Some(t.id) == key && (!t.revoked || key in Keys(rows)) {
      var i :| 0 <= i < |tokens| && tokens[i] == t;
      assert TokenShown(tokens, rows, key);
    }
  }

  function Sum(xs: seq<real>): real {
    if xs == [] then 0.0 else Sum(xs[..|xs| - 1]) + xs[|xs| - 1]
  }

  function Total(xs: seq<Option<nat>>): nat {
    if xs == [] then 0 else Total(xs[..|xs| - 1]) + if xs[|xs| - 1].Some? then xs[|xs| - 1].value else 0
  }

  /** The costs that were reported, in the order of the rows. */
  function ReportedCosts(rows: seq<Attempt>): seq<real> {
    if rows == [] then []
    else
      var last := rows[|rows| - 1];
      ReportedCosts(rows[..|rows| - 1]) + if last.fromResponse && last.costUsd.Some? then [last.costUsd.value] else []
  }

  /** The estimates of the rows without a reported cost. */
  function Estimates(rows: seq<Attempt>): seq<real> {
    if rows == [] then []
    else
      var last := rows[|rows| - 1];
      Estimates(rows[..|rows| - 1]) + if !last.fromResponse && last.costEst.Some? then [last.costEst.value] else []
  }

  /** The rows that have neither. */
  function Unpriced(rows: seq<Attempt>): set<int> {
    set i | 0 <= i < |rows| && !rows[i].fromResponse && rows[i].costEst.None?
  }

  lemma SumMore(xs: seq<real>, x: real)
    ensures Sum(xs + [x]) == Sum(xs) + x
  {
    assert (xs + [x])[..|xs|] == xs;
  }

  lemma TotalMore(rows: seq<Attempt>, of: Attempt -> Option<nat>)
    requires rows != []
    ensures var n := |rows| - 1;
            Total(Map(rows, of)) == Total(Map(rows[..n], of)) + if of(rows[n]).Some? then of(rows[n]).value else 0
  {
    assert Map(rows, of)[..|rows| - 1] == Map(rows[..|rows| - 1], of);
  }

  function Map(rows: seq<Attempt>, of: Attempt -> Option<nat>): seq<Option<nat>> {
    seq(|rows|, i requires 0 <= i < |rows| => of(rows[i]))
  }

  /**
   What each column of the report says: the money that was reported, the money that was estimated for
   the rows without a report, how many rows that were, how many have neither, and the tokens of each kind.
   */
  lemma {:induction false} ColumnsExactly(rows: seq<Attempt>)
    ensures var c := Columns(rows);
            && c.attempts == |rows|
            && c.actual == Sum(ReportedCosts(rows))
            && c.approx == Sum(Estimates(rows)) && c.approxRows == |Estimates(rows)|
            && c.missing == |Unpriced(rows)|
            && c.input == Total(Map(rows, (a: Attempt) => a.prompt))
            && c.output == Total(Map(rows, (a: Attempt) => a.completion))
            && c.cached == Total(Map(rows, (a: Attempt) => a.cached))
            && c.reasoning == Total(Map(rows, (a: Attempt) => a.reasoning))
  {
    if rows == [] {
      assert Unpriced(rows) == {};
    } else {
      var n := |rows| - 1;
      ColumnsExactly(rows[..n]);
      MoneyMore(rows);
      TokensMore(rows);
      hide Sum, ReportedCosts, Estimates, Unpriced, Total, Map;
    }
  }

  lemma MoneyMore(rows: seq<Attempt>)
    requires rows != []
    ensures var before, last := rows[..|rows| - 1], rows[|rows| - 1];
            && Sum(ReportedCosts(rows)) ==
               Sum(ReportedCosts(before)) + (if last.fromResponse && last.costUsd.Some? then last.costUsd.value else 0.0)
            && Sum(Estimates(rows)) ==
               Sum(Estimates(before)) + (if !last.fromResponse && last.costEst.Some? then last.costEst.value else 0.0)
            && |Estimates(rows)| == |Estimates(before)| + (if !last.fromResponse && last.costEst.Some? then 1 else 0)
            && |Unpriced(rows)| == |Unpriced(before)| + if !last.fromResponse && last.costEst.None? then 1 else 0
  {
    var n := |rows| - 1;
    var before, last := rows[..n], rows[n];
    if last.costUsd.Some? {
      SumMore(ReportedCosts(before), last.costUsd.value);
    }
    if last.costEst.Some? {
      SumMore(Estimates(before), last.costEst.value);
    }
    assert forall xs: seq<real> :: xs + [] == xs;
    assert Unpriced(rows) == Unpriced(before) + if !last.fromResponse && last.costEst.None? then {n} else {};
  }

  lemma TokensMore(rows: seq<Attempt>)
    requires rows != []
    ensures var before, last := rows[..|rows| - 1], rows[|rows| - 1];
            && Total(Map(rows, (a: Attempt) => a.prompt)) == Total(Map(before, (a: Attempt) => a.prompt)) + OrZero(last.prompt)
            && Total(Map(rows, (a: Attempt) => a.completion)) ==
               Total(Map(before, (a: Attempt) => a.completion)) + OrZero(last.completion)
            && Total(Map(rows, (a: Attempt) => a.cached)) == Total(Map(before, (a: Attempt) => a.cached)) + OrZero(last.cached)
            && Total(Map(rows, (a: Attempt) => a.reasoning)) ==
               Total(Map(before, (a: Attempt) => a.reasoning)) + OrZero(last.reasoning)
  {
    TotalMore(rows, (a: Attempt) => a.prompt);
    TotalMore(rows, (a: Attempt) => a.completion);
    TotalMore(rows, (a: Attempt) => a.cached);
    TotalMore(rows, (a: Attempt) => a.reasoning);
  }

  /** Rows whose cost the provider reported. */
  function Measured(rows: seq<Attempt>): nat {
    if rows == [] then 0 else Measured(rows[..|rows| - 1]) + if rows[|rows| - 1].fromResponse then 1 else 0
  }

  /** Every attempt is measured, estimated or missing, and only one of them. */
  lemma {:induction false} EveryAttemptIsOneOfThree(rows: seq<Attempt>)
    ensures Columns(rows).attempts == |rows| == Measured(rows) + Columns(rows).approxRows + Columns(rows).missing
  {
    if rows != [] {
      EveryAttemptIsOneOfThree(rows[..|rows| - 1]);
    }
  }
}
