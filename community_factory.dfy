/**
 * The comma-separated id list that CommunityFactory.get(List<Integer>) binds as the
 * parameter of its `IN (?)` query.
 */
module CommunityFactory {

  import opened Wrappers
  import opened Text

  /** The decimal rendering of every id, in list order. */
  function IdStrings(ids: seq<int>): (r: seq<string>)
    ensures |r| == |ids|
    ensures forall i :: 0 <= i < |ids| ==> r[i] == IntToString(ids[i])
  {
    if ids == [] then [] else IdStrings(ids[..|ids| - 1]) + [IntToString(ids[|ids| - 1])]
  }

  /** What the StringBuilder holds before the final comma is removed: every id followed by ','. */
  function WithCommas(ids: seq<int>): string {
    if ids == [] then "" else WithCommas(ids[..|ids| - 1]) + IntToString(ids[|ids| - 1]) + ","
  }

  lemma {:induction false} WithCommasJoin(ids: seq<int>)
    requires |ids| > 0
    ensures WithCommas(ids) == Join(IdStrings(ids), ',') + ","
    decreases |ids|
  {
    var init := ids[..|ids| - 1];
    if |init| > 0 {
      WithCommasJoin(init);
      JoinSnoc(IdStrings(init), IntToString(ids[|ids| - 1]), ',');
    }
  }

  /**
   * get(List<Integer>): append each id and a comma, then drop the final comma when the
   * builder is non-empty. The result is the decimal ids in list order, separated by single
   * commas, with no trailing comma; no ids give "".
   */
  method JoinIds(ids: seq<int>) returns (s: string)
    ensures s == Join(IdStrings(ids), ',')
  {
    s := "";
    for i := 0 to |ids|
      invariant s == WithCommas(ids[..i])
    {
      assert ids[..i + 1][..i] == ids[..i];
      s := s + IntToString(ids[i]);
      s := s + ",";
    }
    assert ids[..|ids|] == ids;
    if |s| > 0 {
      WithCommasJoin(ids);
      s := s[..|s| - 1];
    }
  }

  /** The joined text of no ids is empty. */
  lemma JoinNone()
    ensures Join(IdStrings([]), ',') == ""
  {
  }

  /** n ids produce exactly n - 1 commas. */
  lemma CommaCount(ids: seq<int>)
    requires |ids| > 0
    ensures Count(Join(IdStrings(ids), ','), ',') == |ids| - 1
  {
    forall i | 0 <= i < |ids| ensures ',' !in IdStrings(ids)[i] {
      IntToStringHasNo(ids[i], ',');
    }
    JoinCount(IdStrings(ids), ',');
  }

  /** The ids read back from a joined string: split on ',' and parse each piece. */
  function ParseIds(s: string): (r: seq<Option<int>>)
    ensures |r| == |Split(s, ',')|
  {
    var pieces := Split(s, ',');
    seq(|pieces|, i requires 0 <= i < |pieces| => ParseInt(pieces[i]))
  }

  /** Splitting the joined string on commas and parsing each piece recovers the id list. */
  lemma SplitParseRoundTrip(ids: seq<int>)
    requires |ids| > 0
    ensures ParseIds(Join(IdStrings(ids), ',')) == seq(|ids|, i requires 0 <= i < |ids| => Some(ids[i]))
  {
    var pieces := IdStrings(ids);
    forall i | 0 <= i < |ids| ensures ',' !in pieces[i] {
      IntToStringHasNo(ids[i], ',');
    }
    SplitJoin(pieces, ',');
    var r := ParseIds(Join(pieces, ','));
    forall i | 0 <= i < |ids| ensures r[i] == Some(ids[i]) {
      IntToStringRoundTrip(ids[i]);
    }
  }
}
