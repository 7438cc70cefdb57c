/** The action filter that vets the catalog's sort and filter query parameters
    against fixed allow-lists before the action runs. A parameter that is
    absent reads as the empty string. */
module SortFilterValidation {
  import opened Common

  const ValidSortBys: seq<string> := ["Rating", "Price"]
  const ValidAgeRanges: seq<string> := ["All", "6+", "12+", "18+"]
  const ValidGenres: seq<string> := ["Shooter", "Strategy", "Racing", "Fighting"]

  /** string.Join: the pieces with sep between neighbours. */
  function Join(xs: seq<string>, sep: string): (r: string) {
    if |xs| == 0 then ""
    else if |xs| == 1 then xs[0]
    else xs[0] + sep + Join(xs[1..], sep)
  }

  function SortByMessage(): (r: string) {
    "Invalid SortBy parameter. Valid parameters are: " + Join(ValidSortBys, ", ")
  }

  const SortOrderMessage := "SortOrder parameter must be 'asc' or 'desc'."

  function AgeRangeMessage(): (r: string) {
    "Invalid AgeRange parameter. Valid parameters are: " + Join(ValidAgeRanges, ", ")
  }

  function GenresMessage(): (r: string) {
    "Invalid Genres parameter. Valid parameters are: " + Join(ValidGenres, ", ")
  }

  /** The four rejection messages are pairwise different, so a message names the failed check. */
  lemma MessagesAreDistinct()
    ensures SortByMessage() != SortOrderMessage && SortByMessage() != AgeRangeMessage() && SortByMessage() != GenresMessage()
    ensures SortOrderMessage != AgeRangeMessage() && SortOrderMessage != GenresMessage()
    ensures AgeRangeMessage() != GenresMessage()
  {
    assert SortByMessage()[8] == 'S' && AgeRangeMessage()[8] == 'A' && GenresMessage()[8] == 'G';
    assert SortOrderMessage[8] == 'r';
  }

  // ---------------------------------------------------------------------------
  // Splitting the Genres list

  /** string.Split(c): the maximal c-free pieces, empty ones included. */
  function Split(s: string, c: char): (r: seq<string>)
    ensures |r| >= 1
    decreases |s|
  {
    if |s| == 0 then [""]
    else if s[0] == c then [""] + Split(s[1..], c)
    else
      var rest := Split(s[1..], c);
      [[s[0]] + rest[0]] + rest[1..]
  }

  /** Split with StringSplitOptions.RemoveEmptyEntries. */
  function SplitRemoveEmpty(s: string, c: char): (r: seq<string>) {
    Where(Split(s, c), (piece: string) => piece != "")
  }

  /** No piece contains the separator. */
  lemma {:induction false} SplitPiecesAreSeparatorFree(s: string, c: char)
    ensures forall i :: 0 <= i < |Split(s, c)| ==> c !in Split(s, c)[i]
    decreases |s|
  {
    if |s| > 0 {
      SplitPiecesAreSeparatorFree(s[1..], c);
      if s[0] != c {
        var rest := Split(s[1..], c);
        assert c !in rest[0];
        assert forall i :: 1 <= i < |Split(s, c)| ==> Split(s, c)[i] == rest[i];
      }
    }
  }

  /** Joining the pieces with the separator gives back the string. */
  lemma {:induction false} JoinOfSplit(s: string, c: char)
    ensures Join(Split(s, c), [c]) == s
    decreases |s|
  {
    if |s| > 0 {
      JoinOfSplit(s[1..], c);
      var rest := Split(s[1..], c);
      if s[0] == c {
        assert Split(s, c) == [""] + rest;
        assert Split(s, c)[1..] == rest;
        assert s == "" + [c] + s[1..];
      } else {
        JoinConsHead(s[0], rest, [c]);
        assert s == [s[0]] + s[1..];
      }
    }
  }

  /** Putting a character in front of the first piece puts it in front of the join. */
  lemma JoinConsHead(x: char, xs: seq<string>, sep: string)
    requires |xs| >= 1
    ensures Join([[x] + xs[0]] + xs[1..], sep) == [x] + Join(xs, sep)
  {
    var ys := [[x] + xs[0]] + xs[1..];
    assert ys[0] == [x] + xs[0] && ys[1..] == xs[1..];
  }

  /** Splitting a join of separator-free pieces gives back the pieces. */
  lemma {:induction false} SplitOfJoin(pieces: seq<string>, c: char)
    requires |pieces| >= 1
    requires forall i :: 0 <= i < |pieces| ==> c !in pieces[i]
    ensures Split(Join(pieces, [c]), c) == pieces
    decreases |pieces|
  {
    if |pieces| == 1 {
      SplitOfSeparatorFree(pieces[0], c);
    } else {
      var tail := pieces[1..];
      assert forall i :: 0 <= i < |tail| ==> tail[i] == pieces[i + 1];
      SplitOfJoin(tail, c);
      var rest := Join(tail, [c]);
      assert Join(pieces, [c]) == pieces[0] + [c] + rest;
      SplitPrefixed(pieces[0], rest, c);
      assert [pieces[0]] + tail == pieces;
    }
  }

  lemma {:induction false} SplitOfSeparatorFree(w: string, c: char)
    requires c !in w
    ensures Split(w, c) == [w]
    decreases |w|
  {
    if |w| > 0 {
      SplitOfSeparatorFree(w[1..], c);
      assert [w[0]] + w[1..] == w;
    }
  }

  /** A separator-free word followed by the separator becomes the first piece. */
  lemma {:induction false} SplitPrefixed(w: string, t: string, c: char)
    requires c !in w
    ensures Split(w + [c] + t, c) == [w] + Split(t, c)
    decreases |w|
  {
    if |w| == 0 {
      assert w + [c] + t == [c] + t;
      assert ([c] + t)[1..] == t;
    } else {
      var s := w + [c] + t;
      assert s[0] == w[0] && s[1..] == w[1..] + [c] + t;
      SplitPrefixed(w[1..], t, c);
      assert [w[0]] + w[1..] == w;
    }
  }

  // ---------------------------------------------------------------------------
  // OnActionExecuting

  /** What the filter does with the request: let it through, or answer 400 with a message. */
  datatype FilterResult = Proceed | Reject(message: string)

  predicate SortByOk(sortBy: string) {
    sortBy == "" || sortBy in ValidSortBys
  }

  predicate SortOrderOk(sortOrder: string) {
    sortOrder == "" || sortOrder == "asc" || sortOrder == "desc"
  }

  predicate AgeRangeOk(ageRange: string) {
    ageRange == "" || ageRange in ValidAgeRanges
  }

  /** Every non-empty comma-separated piece is an allowed genre. */
  predicate GenresOk(genres: string) {
    forall i :: 0 <= i < |SplitRemoveEmpty(genres, ',')| ==> SplitRemoveEmpty(genres, ',')[i] in ValidGenres
  }

  /** The four checks in order; the first that fails decides the answer. */
  function OnActionExecuting(sortBy: string, sortOrder: string, ageRange: string, genres: string): (r: FilterResult)
    ensures r == Proceed <==> SortByOk(sortBy) && SortOrderOk(sortOrder) && AgeRangeOk(ageRange) && GenresOk(genres)
    ensures r.Reject? ==> r.message in {SortByMessage(), SortOrderMessage, AgeRangeMessage(), GenresMessage()}
    ensures r == Reject(SortByMessage()) <==> !SortByOk(sortBy)
    ensures r == Reject(SortOrderMessage) <==> SortByOk(sortBy) && !SortOrderOk(sortOrder)
    ensures r == Reject(AgeRangeMessage()) <==> SortByOk(sortBy) && SortOrderOk(sortOrder) && !AgeRangeOk(ageRange)
    ensures r == Reject(GenresMessage()) <==>
      SortByOk(sortBy) && SortOrderOk(sortOrder) && AgeRangeOk(ageRange) && !GenresOk(genres)
  {
    MessagesAreDistinct();
    if !SortByOk(sortBy) then Reject(SortByMessage())
    else if !SortOrderOk(sortOrder) then Reject(SortOrderMessage)
    else if !AgeRangeOk(ageRange) then Reject(AgeRangeMessage())
    else if exists g :: g in SplitRemoveEmpty(genres, ',') && g !in ValidGenres then Reject(GenresMessage())
    else Proceed
  }

  /** Genres is accepted exactly when every piece between commas is empty or an allowed genre. */
  lemma GenresOkIffEveryPieceAllowed(genres: string)
    ensures GenresOk(genres) ==> forall i :: 0 <= i < |Split(genres, ',')| ==> Split(genres, ',')[i] == "" || Split(genres, ',')[i] in ValidGenres
    ensures (forall i :: 0 <= i < |Split(genres, ',')| ==> Split(genres, ',')[i] == "" || Split(genres, ',')[i] in ValidGenres) ==> GenresOk(genres)
  {
    var pieces := Split(genres, ',');
    var kept := SplitRemoveEmpty(genres, ',');
    if GenresOk(genres) {
      forall i | 0 <= i < |pieces| && pieces[i] != "" ensures pieces[i] in ValidGenres {
        assert pieces[i] in kept;
        var t :| 0 <= t < |kept| && kept[t] == pieces[i];
      }
    } else {
      var t :| 0 <= t < |kept| && kept[t] !in ValidGenres;
      assert kept[t] in pieces && kept[t] != "";
      var j :| 0 <= j < |pieces| && pieces[j] == kept[t];
      assert !(pieces[j] == "" || pieces[j] in ValidGenres);
      assert !forall i :: 0 <= i < |pieces| ==> pieces[i] == "" || pieces[i] in ValidGenres;
    }
  }

  /** Absent (empty) parameters are never the reason for a rejection. */
  lemma EmptyParametersNeverReject(sortBy: string, sortOrder: string, ageRange: string, genres: string)
    ensures OnActionExecuting("", "", "", "") == Proceed
    ensures OnActionExecuting(sortBy, sortOrder, ageRange, genres) == Reject(SortByMessage()) ==> sortBy != ""
    ensures OnActionExecuting(sortBy, sortOrder, ageRange, genres) == Reject(SortOrderMessage) ==> sortOrder != ""
    ensures OnActionExecuting(sortBy, sortOrder, ageRange, genres) == Reject(AgeRangeMessage()) ==> ageRange != ""
    ensures OnActionExecuting(sortBy, sortOrder, ageRange, genres) == Reject(GenresMessage()) ==> genres != ""
  {
    assert Split("", ',') == [""];
    assert SplitRemoveEmpty("", ',') == [];
  }
}
