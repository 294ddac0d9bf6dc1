/** bookings.py: 100 random (event, user) pairs, deduplicated, written as one SQL transaction. */
module BookingsScript {

  import opened Text
  import opened SeedData

  // Written in two pieces, because the solver reads short literals much more cheaply.
  const Head := "INSERT INTO Bookings " + "(EventId, UserId) VALUES ("

  /** The whole script: draw, dedupe, then BEGIN, one INSERT per pair, COMMIT. */
  method Generate(draws: seq<int>) returns (file: string)
    requires ValidDraws(draws)
    ensures file == Framed(Head, Dedupe(Drawn(draws)))
  {
    var data := DrawPairs(draws);
    data := FromKeys(data);
    file := Begin + "\n";
    var lines := WriteInserts(Head, data);
    file := file + lines;
    file := file + Commit;
  }

  /**
   * The file is BEGIN, then one statement per distinct drawn pair in first-drawn order, then
   * COMMIT with no newline after it; at most 100 pairs, all within the drawn ranges.
   */
  lemma BookingsFile(draws: seq<int>)
    requires ValidDraws(draws)
    ensures var pairs := Dedupe(Drawn(draws));
      && Split(Framed(Head, pairs), '\n') == [Begin] + PairStatements(Head, pairs) + [Commit]
      && Distinct(pairs) && |pairs| <= 100
      && (forall p :: p in pairs <==> p in Drawn(draws))
      && (forall i :: 0 <= i < |pairs| ==> 1 <= pairs[i].0 <= 100 && 1 <= pairs[i].1 <= 101)
  {
    var pairs := Dedupe(Drawn(draws));
    FramedLines(Head, pairs);
    DedupeDistinct(Drawn(draws));
    DedupeLength(Drawn(draws));
    DedupeSameElements(Drawn(draws));
    forall i | 0 <= i < |pairs| ensures 1 <= pairs[i].0 <= 100 && 1 <= pairs[i].1 <= 101 {
      assert pairs[i] in Drawn(draws);
    }
  }
}
