/** Failure-carrying wrappers shared by every module of the model. */
module Wrappers {

  /** A value that may be missing: Python's `None` or a present value. */
  datatype Option<+T> = None | Some(value: T) {
    function GetOr(default: T): T {
      match this
      case Some(v) => v
      case None => default
    }
  }

  /** The result of an operation that either returns a value or raises with an error. */
  datatype Result<+R, +E> = Success(value: R) | Failure(error: E)

  /** The first present entry at or after `i`. */
  function FirstSome<T>(matches: seq<Option<T>>, i: nat): Option<T>
    decreases |matches| - i
  {
    if i >= |matches| then None
    else if matches[i].Some? then matches[i]
    else FirstSome(matches, i + 1)
  }

  /** Leftmost choice: the entry found is present and every earlier one absent; None means none is present. */
  lemma {:induction false} FirstSomeLeftmost<T>(matches: seq<Option<T>>, i: nat)
    ensures var r := FirstSome(matches, i);
      && (r.Some? ==> exists j :: i <= j < |matches| && matches[j] == r && forall k :: i <= k < j ==> matches[k].None?)
      && (r.None? ==> forall j :: i <= j < |matches| ==> matches[j].None?)
    decreases |matches| - i
  {
    if i < |matches| && matches[i].None? {
      FirstSomeLeftmost(matches, i + 1);
      var r := FirstSome(matches, i);
      if r.Some? {
        var j :| i + 1 <= j < |matches| && matches[j] == r && forall k :: i + 1 <= k < j ==> matches[k].None?;
        assert forall k :: i <= k < j ==> matches[k].None?;
      }
    }
  }

  /** The first present entry from `i` is the one at `j` when everything in between is absent. */
  lemma {:induction false} FirstSomeAt<T>(matches: seq<Option<T>>, i: nat, j: nat)
    requires i <= j < |matches| && matches[j].Some?
    requires forall k :: i <= k < j ==> matches[k].None?
    ensures FirstSome(matches, i) == matches[j]
    decreases j - i
  {
    if i < j {
      FirstSomeAt(matches, i + 1, j);
    }
  }
}
