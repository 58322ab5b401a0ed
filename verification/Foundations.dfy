/** Result and option types, and the timestamp values every component exchanges. */
module Foundations {

  datatype Option<+T> = None | Some(value: T)

  /** The outcome of a call that either returns a value or raises an error. */
  datatype Result<+T, +E> = Ok(value: T) | Err(error: E)

  /**
    A timestamp as the program carries it: the ISO-8601 text it was written as, and the instant
    that text denotes in microseconds since the epoch. Payloads compare the text; ordering and
    ages compare the instant.
   */
  datatype Timestamp = Timestamp(text: string, instant: int)

  /** The whole milliseconds since the epoch, as `Date.parse` gives them; a finer fraction is cut off. */
  function Milliseconds(t: Timestamp): int {
    t.instant / 1000
  }

  /** The seconds from `earlier` to `later`, negative when they are the other way round. */
  function AgeSeconds(earlier: Timestamp, later: Timestamp): real {
    (later.instant - earlier.instant) as real / 1000000.0
  }

  /** True when no two positions of `s` hold the same value. */
  ghost predicate Distinct<T>(s: seq<T>) {
    forall i, j :: 0 <= i < j < |s| ==> s[i] != s[j]
  }

  ghost function Elements<T>(s: seq<T>): set<T> {
    set x | x in s
  }

  /** A sequence has as many distinct values as positions exactly when it has no repetition. */
  lemma {:induction false} DistinctIffFullSize<T>(s: seq<T>)
    ensures |Elements(s)| <= |s|
    ensures |Elements(s)| == |s| <==> Distinct(s)
  {
    if s != [] {
      var front, last := s[..|s| - 1], s[|s| - 1];
      DistinctIffFullSize(front);
      assert s == front + [last];
      assert Elements(s) == Elements(front) + {last};
      if last in front {
        assert Elements(s) == Elements(front);
        var i :| 0 <= i < |front| && front[i] == last;
        assert s[i] == s[|s| - 1];
      } else {
        assert Distinct(front) ==> Distinct(s) by {
          if Distinct(front) {
            forall i, j | 0 <= i < j < |s| ensures s[i] != s[j] {
              assert s[i] == front[i];
              assert j < |front| ==> s[j] == front[j];
            }
          }
        }
        assert Distinct(s) ==> Distinct(front) by {
          forall i, j | Distinct(s) && 0 <= i < j < |front| ensures front[i] != front[j] {
            assert s[i] == front[i] && s[j] == front[j];
          }
        }
      }
    }
  }

  lemma SubsetOfSameSize<T>(small: set<T>, large: set<T>)
    requires small <= large && |small| >= |large|
    ensures small == large
  {
    assert large == small + (large - small);
    assert |large| == |small| + |large - small|;
  }

  /** A sequence that holds as many distinct values as it has positions holds nothing else and no value twice. */
  lemma HoldsExactly<T>(values: seq<T>, wanted: seq<T>)
    requires Distinct(wanted) && |wanted| >= |values|
    requires forall x :: x in wanted ==> x in values
    ensures Distinct(values) && |values| == |wanted|
    ensures forall x :: x in values ==> x in wanted
  {
    DistinctIffFullSize(wanted);
    DistinctIffFullSize(values);
    assert Elements(wanted) <= Elements(values);
    SubsetOfSameSize(Elements(wanted), Elements(values));
    assert forall x :: x in values <==> x in Elements(values);
    assert forall x :: x in wanted <==> x in Elements(wanted);
  }

  /** Distinct values drawn from a list no longer than their number use up the whole list. */
  lemma UsesUp<T>(values: seq<T>, pool: seq<T>)
    requires Distinct(values) && |values| >= |pool|
    requires forall x :: x in values ==> x in pool
    ensures forall x :: x in pool ==> x in values
  {
    HoldsExactly(pool, values);
  }
}
