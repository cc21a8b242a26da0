/** The span of seasons and `getAllWorkouts`, which gathers the links of every season
    into a dictionary from season to link set. */
module Seasons {
  import opened Scanner

  /** `MAX_PERIOD`: how many seasons back the history goes. */
  const MaxPeriod: nat := 10

  /** Python `range(start, stop, -1)`: from `start` down to just above `stop`. */
  function RangeDown(start: int, stop: int): (r: seq<int>)
    ensures |r| == if start > stop then start - stop else 0
    ensures forall k :: 0 <= k < |r| ==> r[k] == start - k
    decreases start - stop
  {
    if start <= stop then [] else [start] + RangeDown(start - 1, stop)
  }

  /** `range(CURRENT_YEAR, CURRENT_YEAR - MAX_PERIOD, -1)`, the current year a parameter. */
  function YearRange(currentYear: int): seq<int> {
    RangeDown(currentYear, currentYear - MaxPeriod)
  }

  /** Ten seasons, from the current year down by one each to the current year minus nine. */
  lemma YearRangeShape(currentYear: int)
    ensures |YearRange(currentYear)| == 10
    ensures YearRange(currentYear)[0] == currentYear && YearRange(currentYear)[9] == currentYear - 9
    ensures forall k :: 0 < k < 10 ==> YearRange(currentYear)[k] == YearRange(currentYear)[k - 1] - 1
    ensures forall y :: y in YearRange(currentYear) <==> currentYear - 9 <= y <= currentYear
  {
    var r := YearRange(currentYear);
    forall y | currentYear - 9 <= y <= currentYear ensures y in r {
      assert r[currentYear - y] == y;
    }
  }

  /** A Python dict from season to links: its values, and its keys in insertion order. */
  datatype SeasonDict = SeasonDict(order: seq<int>, links: map<int, set<string>>)

  /** The reference content of `getAllWorkouts`' dict: every listed season whose page
      has a link of the expression `pat`, with the links of its page. */
  function Accumulated(pat: seq<Sym>, seasons: seq<int>, pages: int -> string): map<int, set<string>> {
    map y | y in seasons && LinkSet(pat, pages(y)) != {} :: LinkSet(pat, pages(y))
  }

  /** The keys of that dict in insertion order: the seasons with links, each where it
      first appears. */
  function InsertionOrder(pat: seq<Sym>, seasons: seq<int>, pages: int -> string): (r: seq<int>)
    ensures forall y :: y in r <==> y in seasons && LinkSet(pat, pages(y)) != {}
    ensures forall i, j :: 0 <= i < j < |r| ==> r[i] != r[j]
    decreases |seasons|
  {
    if |seasons| == 0 then []
    else
      var before := InsertionOrder(pat, seasons[..|seasons| - 1], pages);
      var y := seasons[|seasons| - 1];
      assert forall x :: x in seasons <==> x in seasons[..|seasons| - 1] || x == y;
      if LinkSet(pat, pages(y)) != {} && y !in before then before + [y] else before
  }

  /** One more season at the end: how the reference dict and its key order grow. */
  lemma AccumulateLast(pat: seq<Sym>, seasons: seq<int>, pages: int -> string)
    requires |seasons| > 0
    ensures var init, y := seasons[..|seasons| - 1], seasons[|seasons| - 1];
      Accumulated(pat, seasons, pages) ==
        (if LinkSet(pat, pages(y)) != {} then Accumulated(pat, init, pages)[y := LinkSet(pat, pages(y))] else Accumulated(pat, init, pages))
    ensures var init, y := seasons[..|seasons| - 1], seasons[|seasons| - 1];
      InsertionOrder(pat, seasons, pages) ==
        (if LinkSet(pat, pages(y)) != {} && y !in Accumulated(pat, init, pages) then InsertionOrder(pat, init, pages) + [y] else InsertionOrder(pat, init, pages))
  {
    var init, y := seasons[..|seasons| - 1], seasons[|seasons| - 1];
    assert forall x :: x in seasons <==> x in init || x == y;
  }

  /** Each entry is greater than every later one. */
  predicate Descending(r: seq<int>) {
    forall i, j :: 0 <= i < j < |r| ==> r[i] > r[j]
  }

  lemma DescendingSnoc(before: seq<int>, y: int)
    requires Descending(before) && forall x :: x in before ==> x > y
    ensures Descending(before + [y])
  {
    var r := before + [y];
    forall i, j | 0 <= i < j < |r| ensures r[i] > r[j] {
      assert r[i] == before[i] && r[i] in before;
    }
  }

  /** On strictly descending seasons the keys come out strictly descending too. */
  lemma {:induction false} InsertionOrderDescends(pat: seq<Sym>, seasons: seq<int>, pages: int -> string)
    requires Descending(seasons)
    ensures Descending(InsertionOrder(pat, seasons, pages))
    decreases |seasons|
  {
    if |seasons| > 0 {
      var init := seasons[..|seasons| - 1];
      var y := seasons[|seasons| - 1];
      assert Descending(init);
      InsertionOrderDescends(pat, init, pages);
      AccumulateLast(pat, seasons, pages);
      var before := InsertionOrder(pat, init, pages);
      forall x | x in before ensures x > y {
        var i :| 0 <= i < |init| && init[i] == x;
        assert seasons[i] == x;
      }
      DescendingSnoc(before, y);
    }
  }


  /** `getAllWorkouts`: each season's page is scanned in turn, and a season enters the
      dict only when its link set is not empty. The per-season pages stand for the
      season requests, and `pat` for the expression `collectTraining` searches. */
  method GetAllWorkouts(pat: seq<Sym>, oneRangeSeasons: seq<int>, pages: int -> string) returns (result: SeasonDict)
    ensures result.links == Accumulated(pat, oneRangeSeasons, pages)
    ensures result.order == InsertionOrder(pat, oneRangeSeasons, pages)
  {
    var order: seq<int> := [];
    var links: map<int, set<string>> := map[];
    for i := 0 to |oneRangeSeasons|
      invariant links == Accumulated(pat, oneRangeSeasons[..i], pages)
      invariant order == InsertionOrder(pat, oneRangeSeasons[..i], pages)
    {
      var oneSeason := oneRangeSeasons[i];
      var yearTrainings := CollectTraining(pat, pages(oneSeason));
      AccumulateLast(pat, oneRangeSeasons[..i + 1], pages);
      assert oneRangeSeasons[..i + 1][..i] == oneRangeSeasons[..i];
      if |yearTrainings| > 0 {
        if oneSeason !in links {
          order := order + [oneSeason];
        }
        links := links[oneSeason := yearTrainings];
      }
    }
    assert oneRangeSeasons[..|oneRangeSeasons|] == oneRangeSeasons;
    result := SeasonDict(order, links);
  }

  /** The dict over the ten seasons holds a season exactly when it is in the span and
      its page has a link, and no season maps to an empty set. */
  lemma SeasonDictKeys(pat: seq<Sym>, currentYear: int, pages: int -> string)
    ensures forall y :: y in Accumulated(pat, YearRange(currentYear), pages) <==>
      currentYear - 9 <= y <= currentYear && LinkSet(pat, pages(y)) != {}
    ensures forall y :: y in Accumulated(pat, YearRange(currentYear), pages) ==>
      Accumulated(pat, YearRange(currentYear), pages)[y] != {}
  {
    YearRangeShape(currentYear);
  }

  /** The counters are reported newest season first. */
  lemma SeasonsNewestFirst(pat: seq<Sym>, currentYear: int, pages: int -> string)
    ensures Descending(InsertionOrder(pat, YearRange(currentYear), pages))
  {
    InsertionOrderDescends(pat, YearRange(currentYear), pages);
  }
}
