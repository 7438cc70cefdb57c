/** The error taxonomy shared by the services: an `ErrorMessage` kind (code and
    title), the `ApiException` the services raise, and the `Result` a modelled
    operation returns instead of throwing. */
module Common {

  datatype Option<+T> = None | Some(value: T)

  /** The two kinds of failure the services raise. */
  datatype ErrorMessage = BadRequest | NotFound {

    /** The HTTP status code of the kind: 400 for BadRequest, 404 for NotFound. */
    function Code(): (c: int)
      ensures 400 <= c < 500
      ensures this.BadRequest? ==> c == 400
      ensures this.NotFound? ==> c == 404
    {
      match this
      case BadRequest => 400
      case NotFound => 404
    }

    function Message(): (r: string) {
      match this
      case BadRequest => "Bad Request"
      case NotFound => "Not Found"
    }
  }

  /** Status code, title and the optional list of detail strings. */
  datatype ApiException = ApiException(statusCode: int, message: string, errors: seq<string>)

  /** RaiseError(errorMessage): no detail strings. */
  function RaiseBare(kind: ErrorMessage): (e: ApiException)
    ensures e.statusCode == kind.Code() && e.message == kind.Message() && e.errors == []
  {
    ApiException(kind.Code(), kind.Message(), [])
  }

  /** RaiseError(errorMessage, error): exactly one detail string. */
  function Raise(kind: ErrorMessage, detail: string): (e: ApiException)
    ensures e.statusCode == kind.Code() && e.message == kind.Message() && e.errors == [detail]
  {
    ApiException(kind.Code(), kind.Message(), [detail])
  }

  /** What a service call yields: its value, or the exception it raised. */
  datatype Result<+T> = Ok(value: T) | Err(error: ApiException)

  /** FirstOrDefault over a table: the index of the first row that matches, if any. */
  function FirstIndexWhere<T>(s: seq<T>, matches: T -> bool): (r: Option<nat>)
    ensures r.Some? ==> r.value < |s| && matches(s[r.value])
    ensures r.Some? ==> forall j :: 0 <= j < r.value ==> !matches(s[j])
    ensures r.None? ==> forall j :: 0 <= j < |s| ==> !matches(s[j])
  {
    if s == [] then None
    else if matches(s[0]) then Some(0)
    else match FirstIndexWhere(s[1..], matches)
      case None => None
      case Some(i) => Some(i + 1)
  }

  /** Where over a table: the matching rows, in table order. */
  function Where<T>(s: seq<T>, keep: T -> bool): (r: seq<T>)
    ensures |r| <= |s|
    ensures forall i :: 0 <= i < |r| ==> r[i] in s && keep(r[i])
    ensures forall i :: 0 <= i < |s| && keep(s[i]) ==> s[i] in r
  {
    if s == [] then [] else (if keep(s[0]) then [s[0]] else []) + Where(s[1..], keep)
  }

  /** The positions from k on of the rows that pass keep, in increasing order. */
  function WhereIndices<T>(s: seq<T>, keep: T -> bool, k: nat): (idx: seq<nat>)
    requires k <= |s|
    ensures forall i :: 0 <= i < |idx| ==> k <= idx[i] < |s| && keep(s[idx[i]])
    ensures forall i, j :: 0 <= i < j < |idx| ==> idx[i] < idx[j]
    ensures forall j :: k <= j < |s| && keep(s[j]) ==> j in idx
    decreases |s| - k
  {
    if k == |s| then []
    else (if keep(s[k]) then [k] else []) + WhereIndices(s, keep, k + 1)
  }

  /** Where over the rows from k on: row k if it passes, then the rows from k + 1 on. */
  lemma WhereUnfoldAt<T>(s: seq<T>, keep: T -> bool, k: nat)
    requires k < |s|
    ensures Where(s[k..], keep) == (if keep(s[k]) then [s[k]] else []) + Where(s[k + 1..], keep)
  {
    var t := s[k..];
    assert t[0] == s[k] && t[1..] == s[k + 1..];
  }

  /** Where keeps, in table order and each once, exactly the rows at WhereIndices: it is the
      subsequence of the rows that pass the filter. */
  lemma {:induction false} WhereIsSubsequence<T>(s: seq<T>, keep: T -> bool, k: nat)
    requires k <= |s|
    ensures var w, idx := Where(s[k..], keep), WhereIndices(s, keep, k);
      |w| == |idx| && forall i :: 0 <= i < |w| ==> w[i] == s[idx[i]]
    decreases |s| - k
  {
    if k < |s| {
      WhereIsSubsequence(s, keep, k + 1);
      WhereUnfoldAt(s, keep, k);
      var rest, idx' := Where(s[k + 1..], keep), WhereIndices(s, keep, k + 1);
      var head: seq<T> := if keep(s[k]) then [s[k]] else [];
      var headIdx: seq<nat> := if keep(s[k]) then [k] else [];
      SubsequenceStep(s, head, headIdx, rest, idx');
    }
  }

  /** One step of WhereIsSubsequence: a matching head in front of matching tails. */
  lemma SubsequenceStep<T>(s: seq<T>, head: seq<T>, headIdx: seq<nat>, rest: seq<T>, idx': seq<nat>)
    requires |head| == |headIdx| && (forall i :: 0 <= i < |head| ==> headIdx[i] < |s| && head[i] == s[headIdx[i]])
    requires |rest| == |idx'| && (forall i :: 0 <= i < |rest| ==> idx'[i] < |s| && rest[i] == s[idx'[i]])
    ensures var w, idx := head + rest, headIdx + idx';
      |w| == |idx| && forall i :: 0 <= i < |w| ==> idx[i] < |s| && w[i] == s[idx[i]]
  {
    var w, idx := head + rest, headIdx + idx';
    forall i | 0 <= i < |w| ensures idx[i] < |s| && w[i] == s[idx[i]] {
      if i < |head| {
        assert w[i] == head[i] && idx[i] == headIdx[i];
      } else {
        assert w[i] == rest[i - |head|] && idx[i] == idx'[i - |head|];
      }
    }
  }

  /** Replacing a row by one that matches exactly when it did leaves the first match where it was. */
  lemma FirstIndexWhereUpdate<T>(s: seq<T>, k: nat, x: T, matches: T -> bool)
    requires k < |s| && matches(s[k]) == matches(x)
    ensures FirstIndexWhere(s[k := x], matches) == FirstIndexWhere(s, matches)
  {
    var r, r' := FirstIndexWhere(s, matches), FirstIndexWhere(s[k := x], matches);
    assert forall j :: 0 <= j < |s| ==> matches(s[k := x][j]) == matches(s[j]);
  }

  /** Appending a row moves no earlier match; the row itself is found only if nothing before it matched. */
  lemma {:induction false} FirstIndexWhereAppend<T>(s: seq<T>, x: T, matches: T -> bool)
    ensures FirstIndexWhere(s + [x], matches) ==
      if FirstIndexWhere(s, matches).Some? then FirstIndexWhere(s, matches)
      else if matches(x) then Some(|s|) else None
  {
    if s == [] {
      assert s + [x] == [x];
    } else {
      assert (s + [x])[0] == s[0];
      assert (s + [x])[1..] == s[1..] + [x];
      FirstIndexWhereAppend(s[1..], x, matches);
    }
  }

  /** Removing a row that does not match keeps the first match, one place earlier when it was after the row. */
  lemma FirstIndexWhereRemove<T>(s: seq<T>, k: nat, matches: T -> bool)
    requires k < |s| && !matches(s[k])
    ensures var r, r' := FirstIndexWhere(s, matches), FirstIndexWhere(s[..k] + s[k + 1..], matches);
      && r'.Some? == r.Some?
      && (r.Some? ==> r'.value == if r.value < k then r.value else r.value - 1)
  {
    var t := s[..k] + s[k + 1..];
    var r, r' := FirstIndexWhere(s, matches), FirstIndexWhere(t, matches);
    assert forall j :: 0 <= j < k ==> t[j] == s[j];
    assert forall j :: k <= j < |t| ==> t[j] == s[j + 1];
    if r.Some? {
      var e := if r.value < k then r.value else r.value - 1;
      assert matches(t[e]);
      assert forall j :: 0 <= j < e ==> !matches(t[j]) by {
        forall j | 0 <= j < e ensures !matches(t[j]) {
          if j < k { assert t[j] == s[j]; } else { assert t[j] == s[j + 1]; }
        }
      }
    }
  }

  /** When every match passes the filter, the first match of the filtered rows is the first match
      of the table. */
  lemma {:induction false} FirstIndexWhereThroughWhere<T>(s: seq<T>, keep: T -> bool, matches: T -> bool)
    requires forall x :: matches(x) ==> keep(x)
    ensures var r, r' := FirstIndexWhere(s, matches), FirstIndexWhere(Where(s, keep), matches);
      && r'.Some? == r.Some?
      && (r.Some? ==> Where(s, keep)[r'.value] == s[r.value])
  {
    if s != [] {
      FirstIndexWhereThroughWhere(s[1..], keep, matches);
      var w, rest := Where(s, keep), Where(s[1..], keep);
      if keep(s[0]) {
        assert w == [s[0]] + rest;
        assert w[0] == s[0] && w[1..] == rest;
      } else {
        assert w == rest;
      }
    }
  }

  /** A filter that no row passes keeps nothing. */
  lemma {:induction false} WhereNoneKept<T>(s: seq<T>, keep: T -> bool)
    requires forall i :: 0 <= i < |s| ==> !keep(s[i])
    ensures Where(s, keep) == []
  {
    if s != [] {
      WhereNoneKept(s[1..], keep);
    }
  }

  lemma {:induction false} WhereAppend<T>(s: seq<T>, x: T, keep: T -> bool)
    ensures Where(s + [x], keep) == Where(s, keep) + if keep(x) then [x] else []
  {
    if s == [] {
      assert s + [x] == [x];
    } else {
      assert (s + [x])[1..] == s[1..] + [x];
      WhereAppend(s[1..], x, keep);
    }
  }

  /** Two filters that agree on every row select the same rows. */
  lemma {:induction false} WhereSameFilter<T>(s: seq<T>, keep: T -> bool, keep': T -> bool)
    requires forall x :: keep(x) == keep'(x)
    ensures Where(s, keep) == Where(s, keep')
  {
    if s != [] {
      WhereSameFilter(s[1..], keep, keep');
    }
  }

  /** Replacing a row that is dropped, by another dropped row, does not change the result. */
  lemma {:induction false} WhereUpdateDropped<T>(s: seq<T>, k: nat, x: T, keep: T -> bool)
    requires k < |s| && !keep(s[k]) && !keep(x)
    ensures Where(s[k := x], keep) == Where(s, keep)
  {
    if k > 0 {
      assert s[k := x][1..] == s[1..][k - 1 := x];
      WhereUpdateDropped(s[1..], k - 1, x, keep);
    }
  }

  /** Removing a dropped row does not change the result. */
  lemma {:induction false} WhereRemoveDropped<T>(s: seq<T>, k: nat, keep: T -> bool)
    requires k < |s| && !keep(s[k])
    ensures Where(s[..k] + s[k + 1..], keep) == Where(s, keep)
  {
    if k == 0 {
      assert s[..k] + s[k + 1..] == s[1..];
    } else {
      assert (s[..k] + s[k + 1..])[0] == s[0];
      assert (s[..k] + s[k + 1..])[1..] == s[1..][..k - 1] + s[1..][k..];
      WhereRemoveDropped(s[1..], k - 1, keep);
    }
  }

  /** Filtering by a condition implied by an earlier filter's condition ignores the earlier filter. */
  lemma {:induction false} WhereOfWhereImplied<T>(s: seq<T>, first: T -> bool, second: T -> bool)
    requires forall x :: second(x) ==> first(x)
    ensures Where(Where(s, first), second) == Where(s, second)
  {
    if s != [] {
      WhereOfWhereImplied(s[1..], first, second);
      var rest := Where(s[1..], first);
      if first(s[0]) {
        assert Where(s, first) == [s[0]] + rest;
        assert Where(s, first)[1..] == rest;
      } else {
        assert Where(s, first) == rest;
      }
    }
  }

  /** Filtering by a condition that an earlier filter excludes leaves nothing. */
  lemma {:induction false} WhereOfWhereExcluded<T>(s: seq<T>, first: T -> bool, second: T -> bool)
    requires forall x :: second(x) ==> !first(x)
    ensures Where(Where(s, first), second) == []
  {
    if s != [] {
      WhereOfWhereExcluded(s[1..], first, second);
      var rest := Where(s[1..], first);
      if first(s[0]) {
        assert Where(s, first) == [s[0]] + rest;
        assert Where(s, first)[1..] == rest;
      } else {
        assert Where(s, first) == rest;
      }
    }
  }

  /** A relation that holds between every row and every later row still holds after filtering. */
  lemma {:induction false} WhereKeepsPairwise<T>(s: seq<T>, keep: T -> bool, ok: (T, T) -> bool)
    requires forall i, j :: 0 <= i < j < |s| ==> ok(s[i], s[j])
    ensures forall i, j :: 0 <= i < j < |Where(s, keep)| ==> ok(Where(s, keep)[i], Where(s, keep)[j])
  {
    if s != [] {
      WhereKeepsPairwise(s[1..], keep, ok);
      var rest := Where(s[1..], keep);
      if keep(s[0]) {
        var r := Where(s, keep);
        assert r == [s[0]] + rest;
        forall j | 0 <= j < |rest| ensures ok(s[0], rest[j]) {
          var t :| 0 <= t < |s[1..]| && s[1..][t] == rest[j];
          assert s[t + 1] == rest[j];
        }
        forall i, j | 0 <= i < j < |r| ensures ok(r[i], r[j]) {
          if i > 0 {
            assert r[i] == rest[i - 1] && r[j] == rest[j - 1];
          } else {
            assert r[j] == rest[j - 1];
          }
        }
      } else {
        assert Where(s, keep) == rest;
      }
    }
  }
}
