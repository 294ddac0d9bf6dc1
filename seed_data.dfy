/**
 * Shared pieces of the seed-data scripts: the pairs drawn in a loop of random draws,
 * `list(dict.fromkeys(data))` (order-preserving dedupe) and a file made of lines.
 */
module SeedData {

  import opened Text

  // ----- the draw loop -----

  /**
   * The random draws of one run, in call order: `randrange(1, 101)` then `randrange(1, 102)`
   * on each of the 100 iterations, so even positions lie in [1, 100] and odd ones in [1, 101].
   */
  predicate ValidDraws(draws: seq<int>) {
    |draws| == 200 &&
    forall k :: 0 <= k < |draws| ==> 1 <= draws[k] <= (if k % 2 == 0 then 100 else 101)
  }

  /** The pairs made from the draws, two consecutive draws per pair. */
  function Drawn(draws: seq<int>): (r: seq<(int, int)>)
    requires ValidDraws(draws)
    ensures |r| == 100
    ensures forall i :: 0 <= i < |r| ==> 1 <= r[i].0 <= 100 && 1 <= r[i].1 <= 101
  {
    seq(100, i requires 0 <= i < 100 =>
      assert (2 * i) % 2 == 0 && (2 * i + 1) % 2 == 1; (draws[2 * i], draws[2 * i + 1]))
  }

  /** The loop `for i in range(100): data.append((randrange(1, 101), randrange(1, 102)))`. */
  method DrawPairs(draws: seq<int>) returns (data: seq<(int, int)>)
    requires ValidDraws(draws)
    ensures |data| == 100
    ensures forall i :: 0 <= i < 100 ==> data[i] == (draws[2 * i], draws[2 * i + 1])
    ensures data == Drawn(draws)
  {
    data := [];
    var i := 0;
    while i < 100
      invariant 0 <= i <= 100
      invariant |data| == i
      invariant forall j :: 0 <= j < i ==> data[j] == (draws[2 * j], draws[2 * j + 1])
      invariant forall j :: 0 <= j < |data| ==> 1 <= data[j].0 <= 100 && 1 <= data[j].1 <= 101
    {
      assert (2 * i) % 2 == 0 && (2 * i + 1) % 2 == 1;
      data := data + [(draws[2 * i], draws[2 * i + 1])];
      i := i + 1;
    }
    assert data == Drawn(draws);
  }

  // ----- dict.fromkeys -----

  /** Reference definition of the dedupe: scan left to right, keep a value the first time it is seen. */
  function Dedupe<T(==)>(s: seq<T>): seq<T> {
    if s == [] then []
    else
      var d := Dedupe(s[..|s| - 1]);
      if s[|s| - 1] in d then d else d + [s[|s| - 1]]
  }

  predicate Distinct<T(==)>(s: seq<T>) {
    forall i, j :: 0 <= i < j < |s| ==> s[i] != s[j]
  }

  /** Index of the first occurrence of `x` in `s`. */
  function FirstIndex<T(==)>(s: seq<T>, x: T): (r: nat)
    requires x in s
    ensures r < |s| && s[r] == x && x !in s[..r]
  {
    if x in s[..|s| - 1] then FirstIndex(s[..|s| - 1], x) else |s| - 1
  }

  /** The dedupe keeps exactly the values that occur in its input. */
  lemma {:induction false} DedupeSameElements<T>(s: seq<T>)
    ensures forall x :: x in Dedupe(s) <==> x in s
  {
    if s != [] {
      var init := s[..|s| - 1];
      DedupeSameElements(init);
      assert s == init + [s[|s| - 1]];
    }
  }

  lemma {:induction false} DedupeDistinct<T>(s: seq<T>)
    ensures Distinct(Dedupe(s))
  {
    if s != [] {
      DedupeDistinct(s[..|s| - 1]);
    }
  }

  lemma {:induction false} DedupeLength<T>(s: seq<T>)
    ensures |Dedupe(s)| <= |s|
  {
    if s != [] {
      DedupeLength(s[..|s| - 1]);
    }
  }

  /** Kept values appear in the order of their first occurrences in the input. */
  lemma {:induction false} DedupeFirstOccurrenceOrder<T>(s: seq<T>)
    ensures forall x :: x in Dedupe(s) ==> x in s
    ensures forall i, j :: 0 <= i < j < |Dedupe(s)| ==>
              FirstIndex(s, Dedupe(s)[i]) < FirstIndex(s, Dedupe(s)[j])
  {
    DedupeSameElements(s);
    if s != [] {
      var init := s[..|s| - 1];
      var y := s[|s| - 1];
      var d := Dedupe(init);
      DedupeFirstOccurrenceOrder(init);
      DedupeSameElements(init);
      forall x | x in init ensures FirstIndex(s, x) == FirstIndex(init, x) {
      }
      forall i, j | 0 <= i < j < |Dedupe(s)|
        ensures FirstIndex(s, Dedupe(s)[i]) < FirstIndex(s, Dedupe(s)[j])
      {
        if y in d {
          assert Dedupe(s) == d;
        } else {
          assert Dedupe(s) == d + [y];
          assert Dedupe(s)[i] == d[i] && d[i] in init;
          if j < |d| {
            assert Dedupe(s)[j] == d[j] && d[j] in init;
          } else {
            assert Dedupe(s)[j] == y && y !in init;
            assert FirstIndex(s, y) == |s| - 1;
          }
        }
      }
    }
  }

  /** A list without repeats is left as it is, so the dedupe is idempotent. */
  lemma {:induction false} DedupeOfDistinct<T>(s: seq<T>)
    requires Distinct(s)
    ensures Dedupe(s) == s
  {
    if s != [] {
      var init := s[..|s| - 1];
      DedupeOfDistinct(init);
      assert s == init + [s[|s| - 1]];
    }
  }

  lemma DedupeIdempotent<T>(s: seq<T>)
    ensures Dedupe(Dedupe(s)) == Dedupe(s)
  {
    DedupeDistinct(s);
    DedupeOfDistinct(Dedupe(s));
  }

  /** `list(dict.fromkeys(data))`: insertion into the dictionary, then its keys in insertion order. */
  method FromKeys<T(==)>(data: seq<T>) returns (keys: seq<T>)
    ensures keys == Dedupe(data)
    ensures Distinct(keys) && |keys| <= |data|
    ensures forall x :: x in keys <==> x in data
  {
    keys := [];
    var seen: set<T> := {};
    var i := 0;
    while i < |data|
      invariant 0 <= i <= |data|
      invariant keys == Dedupe(data[..i])
      invariant forall x :: x in seen <==> x in keys
    {
      assert data[..i + 1][..i] == data[..i];
      if data[i] !in seen {
        keys := keys + [data[i]];
        seen := seen + {data[i]};
      }
      i := i + 1;
    }
    assert data[..i] == data;
    DedupeDistinct(data);
    DedupeLength(data);
    DedupeSameElements(data);
  }

  // ----- files of lines -----

  /** File text made of the given lines, each followed by a newline. */
  function Lines(lines: seq<string>): string {
    if lines == [] then "" else lines[0] + "\n" + Lines(lines[1..])
  }

  lemma {:induction false} LinesSnoc(lines: seq<string>, x: string)
    ensures Lines(lines + [x]) == Lines(lines) + x + "\n"
  {
    if lines == [] {
      assert [x][1..] == [];
    } else {
      assert (lines + [x])[1..] == lines[1..] + [x];
      LinesSnoc(lines[1..], x);
    }
  }

  /** Lines followed by an unterminated tail is the newline join of the lines and the tail. */
  lemma {:induction false} LinesJoin(lines: seq<string>, tail: string)
    ensures Lines(lines) + tail == Join(lines + [tail], '\n')
  {
    if lines != [] {
      LinesJoin(lines[1..], tail);
      assert (lines + [tail])[1..] == lines[1..] + [tail];
    }
  }

  /** Splitting on newlines recovers every line, then the tail (which is "" when nothing follows). */
  lemma SplitLines(lines: seq<string>, tail: string)
    requires forall i :: 0 <= i < |lines| ==> '\n' !in lines[i]
    requires '\n' !in tail
    ensures Split(Lines(lines) + tail, '\n') == lines + [tail]
  {
    LinesJoin(lines, tail);
    SplitJoin(lines + [tail], '\n');
  }

  /** "INSERT ... VALUES (a, b);" for a statement head ending in "VALUES (". */
  function PairStatement(head: string, p: (int, int)): string {
    head + IntToString(p.0) + ", " + IntToString(p.1) + ");"
  }

  function PairStatements(head: string, pairs: seq<(int, int)>): (r: seq<string>)
    ensures |r| == |pairs|
    ensures forall i :: 0 <= i < |pairs| ==> r[i] == PairStatement(head, pairs[i])
  {
    seq(|pairs|, i requires 0 <= i < |pairs| => PairStatement(head, pairs[i]))
  }

  lemma PairStatementOneLine(head: string, p: (int, int))
    requires '\n' !in head
    ensures '\n' !in PairStatement(head, p)
  {
    IntToStringHasNo(p.0, '\n');
    IntToStringHasNo(p.1, '\n');
  }

  /** The write loop: one `sql.format(...)` line per pair, in order. */
  method WriteInserts(head: string, data: seq<(int, int)>) returns (text: string)
    ensures text == Lines(PairStatements(head, data))
  {
    text := "";
    var i := 0;
    while i < |data|
      invariant 0 <= i <= |data|
      invariant text == Lines(PairStatements(head, data[..i]))
    {
      assert PairStatements(head, data[..i + 1]) == PairStatements(head, data[..i]) + [PairStatement(head, data[i])];
      LinesSnoc(PairStatements(head, data[..i]), PairStatement(head, data[i]));
      text := text + PairStatement(head, data[i]) + "\n";
      i := i + 1;
    }
    assert data[..i] == data;
  }

  const Begin := "BEGIN TRANSACTION;"
  const Commit := "COMMIT;"

  /** A transaction-framed file: the BEGIN line, one line per pair, then COMMIT with no newline. */
  function Framed(head: string, pairs: seq<(int, int)>): string {
    Begin + "\n" + Lines(PairStatements(head, pairs)) + Commit
  }

  /** The lines of a framed file are BEGIN, the statements in order, and COMMIT last. */
  lemma FramedLines(head: string, pairs: seq<(int, int)>)
    requires '\n' !in head
    ensures Split(Framed(head, pairs), '\n') == [Begin] + PairStatements(head, pairs) + [Commit]
  {
    var stmts := PairStatements(head, pairs);
    forall i | 0 <= i < |stmts| ensures '\n' !in stmts[i] {
      PairStatementOneLine(head, pairs[i]);
    }
    SplitLines([Begin] + stmts, Commit);
    assert ([Begin] + stmts)[1..] == stmts;
    assert Lines([Begin] + stmts) == Begin + "\n" + Lines(stmts);
    assert Framed(head, pairs) == Lines([Begin] + stmts) + Commit;
  }

  /** A file of bare statement lines ends with a newline: its last split piece is empty. */
  lemma PlainLines(head: string, pairs: seq<(int, int)>)
    requires '\n' !in head
    ensures Split(Lines(PairStatements(head, pairs)), '\n') == PairStatements(head, pairs) + [""]
  {
    var stmts := PairStatements(head, pairs);
    forall i | 0 <= i < |stmts| ensures '\n' !in stmts[i] {
      PairStatementOneLine(head, pairs[i]);
    }
    SplitLines(stmts, "");
    assert Lines(stmts) + "" == Lines(stmts);
  }
}
