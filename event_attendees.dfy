/** event_attendees.py: 100 random (event, user) pairs written one INSERT per line, as drawn. */
module EventAttendeesScript {

  import opened Text
  import opened SeedData

  // Written in two pieces, because the solver reads short literals much more cheaply.
  const Head := "INSERT INTO EventAttendees " + "(EventId, UserId) VALUES ("

  /** The whole script: draw, then one INSERT line per pair with no dedupe and no framing. */
  method Generate(draws: seq<int>) returns (file: string)
    requires ValidDraws(draws)
    ensures file == Lines(PairStatements(Head, Drawn(draws)))
  {
    var data := DrawPairs(draws);
    file := WriteInserts(Head, data);
  }

  /**
   * Line i of the file is the statement for the i-th drawn pair, so exactly 100 lines, repeats
   * included, and the file ends with a newline.
   */
  lemma AttendeesFile(draws: seq<int>)
    requires ValidDraws(draws)
    ensures var lines := Split(Lines(PairStatements(Head, Drawn(draws))), '\n');
      && |lines| == 101 && lines[100] == ""
      && forall i :: 0 <= i < 100 ==> lines[i] == PairStatement(Head, (draws[2 * i], draws[2 * i + 1]))
  {
    PlainLines(Head, Drawn(draws));
  }

  /** Two equal draws give two equal lines: nothing is deduplicated. */
  lemma RepeatsKept(draws: seq<int>, i: nat, j: nat)
    requires ValidDraws(draws)
    requires i < j < 100 && draws[2 * i] == draws[2 * j] && draws[2 * i + 1] == draws[2 * j + 1]
    ensures var lines := Split(Lines(PairStatements(Head, Drawn(draws))), '\n');
      |lines| == 101 && lines[i] == lines[j]
  {
    var d := Drawn(draws);
    assert d[i] == d[j];
    var stmts := PairStatements(Head, d);
    PlainLines(Head, d);
    assert Split(Lines(stmts), '\n') == stmts + [""];
    assert stmts[i] == stmts[j];
  }
}
