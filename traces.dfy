/**
 * Links attempted one after the other.
 *
 * A `Trace` is what a run of downloads has produced so far: the number of
 * the next attempt, the files on disk, the (link, file) pairs kept, and the
 * events logged. `UpTo` takes the first `j` links of an order through a
 * step function; the lemmas here hold for any step that obeys the laws
 * below, so they are stated once for the downloader of `downloader.py`
 * and proved without looking inside its step.
 */
module Traces {
  import opened Optional

  datatype Trace<E> = Trace(attempt: nat, files: set<string>, batch: seq<(string, string)>, log: seq<E>)

  /** The first `j` links of `order` taken one after the other by `step` from `t`. */
  function UpTo<E>(step: (string, Trace<E>) -> Trace<E>, order: seq<string>, j: nat, t: Trace<E>): Trace<E>
    requires j <= |order|
    decreases j
  {
    if j == 0 then t else step(order[j - 1], UpTo(step, order, j - 1, t))
  }

  /** Every step uses up one attempt number. */
  ghost predicate Counts<E(!new)>(step: (string, Trace<E>) -> Trace<E>)
  {
    forall l, u :: step(l, u).attempt == u.attempt + 1
  }

  /** Every step keeps its link with the file `out` names for it, when it names one, and nothing else. */
  ghost predicate Keeps<E(!new)>(step: (string, Trace<E>) -> Trace<E>, out: (string, Trace<E>) -> Option<string>)
  {
    forall l, u :: step(l, u).batch == u.batch + (if out(l, u).Some? then [(l, out(l, u).value)] else [])
  }

  /** Every step adds to the disk only files that attempt wrote (`w` of its number). */
  ghost predicate Grows<E(!new)>(step: (string, Trace<E>) -> Trace<E>, w: nat -> set<string>)
  {
    forall l, u :: step(l, u).files <= u.files + w(u.attempt)
  }

  /** No step leaves the temporary file of the file it got, unless it was there or was written. */
  ghost predicate Cleans<E(!new)>(step: (string, Trace<E>) -> Trace<E>, out: (string, Trace<E>) -> Option<string>,
                            w: nat -> set<string>, temp: string -> string)
  {
    forall l, u :: out(l, u).Some? ==> temp(out(l, u).value) !in step(l, u).files - (u.files + w(u.attempt))
  }

  /** Every file written by attempts `start` to `start + count - 1`. */
  function Written(w: nat -> set<string>, start: nat, count: nat): set<string>
    decreases count
  {
    if count == 0 then {} else Written(w, start, count - 1) + w(start + count - 1)
  }

  /** Link `m` is taken after the ones before it. */
  lemma UpToLast<E>(step: (string, Trace<E>) -> Trace<E>, order: seq<string>, m: nat, t: Trace<E>)
    requires m < |order|
    ensures UpTo(step, order, m + 1, t) == step(order[m], UpTo(step, order, m, t))
  {
  }

  /** A link added at the end does not change the steps before it. */
  lemma {:induction false} UpToSnoc<E>(step: (string, Trace<E>) -> Trace<E>, order: seq<string>, link: string, j: nat, t: Trace<E>)
    requires j <= |order|
    ensures UpTo(step, order + [link], j, t) == UpTo(step, order, j, t)
    decreases j
  {
    if j > 0 {
      UpToSnoc(step, order, link, j - 1, t);
      assert (order + [link])[j - 1] == order[j - 1];
    }
  }

  /** One more link is one more step. */
  lemma UpToAppend<E>(step: (string, Trace<E>) -> Trace<E>, order: seq<string>, link: string, t: Trace<E>)
    ensures UpTo(step, order + [link], |order| + 1, t) == step(link, UpTo(step, order, |order|, t))
  {
    UpToSnoc(step, order, link, |order|, t);
    assert (order + [link])[|order|] == link;
  }

  /** `j` links take `j` attempt numbers. */
  lemma {:induction false} UpToCount<E(!new)>(step: (string, Trace<E>) -> Trace<E>, order: seq<string>, j: nat, t: Trace<E>)
    requires Counts(step) && j <= |order|
    ensures UpTo(step, order, j, t).attempt == t.attempt + j
    decreases j
  {
    if j > 0 {
      UpToCount(step, order, j - 1, t);
    }
  }

  /**
   * `x` is kept by one of the first `j` steps: the link of step `k` is
   * `x.0`, and `out` names the file `x.1` on the trace the earlier steps
   * left.
   */
  ghost predicate Recorded<E>(step: (string, Trace<E>) -> Trace<E>, out: (string, Trace<E>) -> Option<string>,
                              order: seq<string>, j: nat, t: Trace<E>, x: (string, string))
    requires j <= |order|
  {
    exists k :: 0 <= k < j && x.0 == order[k] && out(order[k], UpTo(step, order, k, t)) == Some(x.1)
  }

  /** `flag` holds of one of the first `j` steps, on the trace the earlier steps left. */
  ghost predicate Raised<E>(step: (string, Trace<E>) -> Trace<E>, flag: (string, Trace<E>) -> bool,
                            order: seq<string>, j: nat, t: Trace<E>)
    requires j <= |order|
  {
    exists k :: 0 <= k < j && flag(order[k], UpTo(step, order, k, t))
  }

  /** One more step raises the flag exactly when it was raised before or is raised by that step. */
  lemma RaisedStep<E>(step: (string, Trace<E>) -> Trace<E>, flag: (string, Trace<E>) -> bool,
                      order: seq<string>, m: nat, t: Trace<E>)
    requires m < |order|
    ensures Raised(step, flag, order, m + 1, t)
            <==> Raised(step, flag, order, m, t) || flag(order[m], UpTo(step, order, m, t))
  {
    if Raised(step, flag, order, m + 1, t) && !flag(order[m], UpTo(step, order, m, t)) {
      var k :| 0 <= k < m + 1 && flag(order[k], UpTo(step, order, k, t));
      assert k < m;
    }
  }

  /** Dropping a prefix of `a` from `a + b`. */
  lemma DropAppend<T>(a: seq<T>, b: seq<T>, i: nat)
    requires i <= |a|
    ensures (a + b)[i..] == a[i..] + b
  {
  }

  /**
   * The batch grows by exactly the links whose step got a file, each with
   * that file: nothing that got a file is missed and nothing else is added.
   */
  lemma {:induction false} UpToBatch<E(!new)>(step: (string, Trace<E>) -> Trace<E>, out: (string, Trace<E>) -> Option<string>,
                                        order: seq<string>, j: nat, t: Trace<E>)
    requires Keeps(step, out) && j <= |order|
    ensures t.batch <= UpTo(step, order, j, t).batch
    ensures forall x :: x in UpTo(step, order, j, t).batch[|t.batch|..] <==> Recorded(step, out, order, j, t, x)
    decreases j
  {
    var b := UpTo(step, order, j, t).batch;
    if j == 0 {
      assert b[|t.batch|..] == [];
    } else {
      var m := j - 1;
      var u := UpTo(step, order, m, t);
      UpToBatch(step, out, order, m, t);
      var added := if out(order[m], u).Some? then [(order[m], out(order[m], u).value)] else [];
      assert b == u.batch + added;
      DropAppend(u.batch, added, |t.batch|);
      forall x | x in b[|t.batch|..]
        ensures Recorded(step, out, order, j, t, x)
      {
        if x in u.batch[|t.batch|..] {
          var k :| 0 <= k < m && x.0 == order[k] && out(order[k], UpTo(step, order, k, t)) == Some(x.1);
        } else {
          assert x.0 == order[m] && out(order[m], u) == Some(x.1);
        }
      }
      forall x | Recorded(step, out, order, j, t, x)
        ensures x in b[|t.batch|..]
      {
        var k :| 0 <= k < j && x.0 == order[k] && out(order[k], UpTo(step, order, k, t)) == Some(x.1);
        if k < m {
          assert Recorded(step, out, order, m, t, x);
        }
      }
    }
  }

  /** Attempt `last`, the one after the first `m` from `start`, adds its written files to theirs. */
  lemma WrittenLast(w: nat -> set<string>, start: nat, count: nat, m: nat, last: nat)
    requires count == m + 1 && last == start + m
    ensures Written(w, start, m) <= Written(w, start, count) && w(last) <= Written(w, start, count)
    ensures Written(w, start, count) <= Written(w, start, m) + w(last)
  {
  }

  /** What attempts `start` to `mid - 1` wrote, then the next `b`, is what the `total` attempts from `start` wrote. */
  lemma {:induction false} WrittenSplit(w: nat -> set<string>, start: nat, a: nat, mid: nat, b: nat, total: nat)
    requires mid == start + a && total == a + b
    ensures Written(w, start, a) <= Written(w, start, total) && Written(w, mid, b) <= Written(w, start, total)
    ensures Written(w, start, total) <= Written(w, start, a) + Written(w, mid, b)
    decreases b
  {
    if b > 0 {
      WrittenSplit(w, start, a, mid, b - 1, total - 1);
      WrittenLast(w, mid, b, b - 1, mid + b - 1);
      WrittenLast(w, start, total, total - 1, mid + b - 1);
    }
  }

  /**
   * From the trace after the first `i` steps to the one after the first
   * `j`, the disk only gains files that attempts `from` (the number of step
   * `i`) to `from + count - 1` wrote.
   */
  lemma {:induction false} UpToFiles<E(!new)>(step: (string, Trace<E>) -> Trace<E>, w: nat -> set<string>,
                                        order: seq<string>, i: nat, j: nat, t: Trace<E>, from: nat, count: nat)
    requires Counts(step) && Grows(step, w)
    requires i <= j <= |order| && from == t.attempt + i && count == j - i
    ensures UpTo(step, order, j, t).files <= UpTo(step, order, i, t).files + Written(w, from, count)
    decreases j
  {
    if i < j {
      var m := j - 1;
      UpToFiles(step, w, order, i, m, t, from, count - 1);
      UpToCount(step, order, m, t);
      WrittenLast(w, from, count, count - 1, t.attempt + m);
    }
  }

  /**
   * A file `x` that step `k` left off the disk unless it was there or that
   * attempt (number `from`) wrote it stays off every later disk, unless an
   * attempt from `from` to `from + count - 1` wrote it.
   */
  lemma {:induction false} StaysGone<E(!new)>(step: (string, Trace<E>) -> Trace<E>, w: nat -> set<string>,
                                              order: seq<string>, x: string, k: nat, j: nat, t: Trace<E>, from: nat, count: nat)
    requires Counts(step) && Grows(step, w)
    requires k < j <= |order| && from == t.attempt + k && count == j - k
    requires x !in UpTo(step, order, k + 1, t).files - (UpTo(step, order, k, t).files + w(from))
    ensures x !in UpTo(step, order, j, t).files - (UpTo(step, order, k, t).files + Written(w, from, count))
    decreases j
  {
    var start := UpTo(step, order, k, t).files;
    if j == k + 1 {
      WrittenLast(w, from, 1, 0, from);
      GoneFirst(x, UpTo(step, order, j, t).files, start, w(from), Written(w, from, count));
    } else {
      var m := j - 1;
      StaysGone(step, w, order, x, k, m, t, from, count - 1);
      UpToCount(step, order, m, t);
      UpToLast(step, order, m, t);
      WrittenLast(w, from, count, count - 1, t.attempt + m);
      GoneNext(x, UpTo(step, order, j, t).files, UpTo(step, order, m, t).files, start,
               Written(w, from, count - 1), w(t.attempt + m), Written(w, from, count));
    }
  }

  /** Not new beyond `start` and `wrote` is not new beyond `start` and any superset of `wrote`. */
  lemma GoneFirst(x: string, here: set<string>, start: set<string>, wrote: set<string>, all: set<string>)
    requires x !in here - (start + wrote) && wrote <= all
    ensures x !in here - (start + all)
  {
  }

  /** Not new beyond `start` and `after`, where `start` holds only `first` and `upTo`: not new beyond `first` and `all`. */
  lemma GoneWithin(x: string, here: set<string>, start: set<string>, first: set<string>,
                   upTo: set<string>, after: set<string>, all: set<string>)
    requires x !in here - (start + after) && start <= first + upTo
    requires upTo <= all && after <= all
    ensures x !in here - (first + all)
  {
  }

  /** Not new on `prev`, and `here` adds only `wrote` to `prev`: not new on `here` either. */
  lemma GoneNext(x: string, here: set<string>, prev: set<string>, start: set<string>,
                 before: set<string>, wrote: set<string>, all: set<string>)
    requires x !in prev - (start + before) && here <= prev + wrote
    requires before <= all && wrote <= all
    ensures x !in here - (start + all)
  {
  }

  /**
   * The temporary file of what step `k` got never survives the steps,
   * unless it was on the disk at the start or was written by one of them,
   * when step `k` itself leaves it behind only in those cases (the instance
   * of `Cleans` for that step).
   */
  lemma UpToNoTemp<E(!new)>(step: (string, Trace<E>) -> Trace<E>, out: (string, Trace<E>) -> Option<string>,
                      w: nat -> set<string>, temp: string -> string, order: seq<string>, k: nat, t: Trace<E>)
    requires Counts(step) && Grows(step, w)
    requires k < |order| && out(order[k], UpTo(step, order, k, t)).Some?
    requires var u := UpTo(step, order, k, t); temp(out(order[k], u).value) !in step(order[k], u).files - (u.files + w(u.attempt))
    ensures temp(out(order[k], UpTo(step, order, k, t)).value)
            !in UpTo(step, order, |order|, t).files - (t.files + Written(w, t.attempt, |order|))
  {
    var u := UpTo(step, order, k, t);
    var x := temp(out(order[k], u).value);
    UpToCount(step, order, k, t);
    UpToLast(step, order, k, t);
    StaysGone(step, w, order, x, k, |order|, t, u.attempt, |order| - k);
    UpToFiles(step, w, order, 0, k, t, t.attempt, k);
    WrittenSplit(w, t.attempt, k, u.attempt, |order| - k, |order|);
    GoneWithin(x, UpTo(step, order, |order|, t).files, UpTo(step, order, k, t).files, t.files,
               Written(w, t.attempt, k), Written(w, u.attempt, |order| - k), Written(w, t.attempt, |order|));
  }
}
