/** The optional-value datatype shared by the model: `None` stands for the
    Python `None` / JavaScript `undefined` a lookup or a measurement can
    yield. */
module Base {

  datatype Option<+T> = None | Some(value: T) {

    /** The wrapped value, or `default` when there is none. */
    function GetOr(default: T): T
    {
      match this
      case Some(v) => v
      case None => default
    }
  }

  /** The values of the present entries, in order: what the prober's list
      of measured times and the dashboard's loaders keep. */
  function Somes<T(!new)>(xs: seq<Option<T>>): (ys: seq<T>)
    ensures |ys| <= |xs|
    ensures forall y :: y in ys <==> Some(y) in xs
  {
    if xs == [] then []
    else
      var rest := Somes(xs[1..]);
      assert forall y :: Some(y) in xs <==> xs[0] == Some(y) || Some(y) in xs[1..];
      (if xs[0].Some? then [xs[0].value] else []) + rest
  }

  /** A further present entry appends its value; an absent one adds
      nothing. */
  lemma {:induction false} SomesAppend<T(!new)>(xs: seq<Option<T>>, x: Option<T>)
    ensures Somes(xs + [x]) == Somes(xs) + (if x.Some? then [x.value] else [])
  {
    if xs != [] {
      assert (xs + [x])[1..] == xs[1..] + [x];
      SomesAppend(xs[1..], x);
    } else {
      assert xs + [x] == [x];
    }
  }

  /** `origin` places the values `ys` in `xs`: value `k` comes from entry
      `origin[k]`, the origins increase strictly (so no entry is used
      twice), and every present entry at position `from` or later is an
      origin. */
  ghost predicate Origins<T>(xs: seq<Option<T>>, ys: seq<T>, origin: seq<nat>, from: nat)
  {
    |origin| == |ys|
    && (forall k :: 0 <= k < |origin| ==> from <= origin[k] < |xs| && xs[origin[k]] == Some(ys[k]))
    && (forall k, l :: 0 <= k < l < |origin| ==> origin[k] < origin[l])
    && (forall i :: from <= i < |xs| && xs[i].Some? ==> i in origin)
  }

  /** The kept values are the present entries in their order, each entry
      kept once. */
  lemma {:induction false} SomesOrigins<T(!new)>(xs: seq<Option<T>>) returns (origin: seq<nat>)
    ensures Origins(xs, Somes(xs), origin, 0)
  {
    if xs == [] {
      origin := [];
    } else {
      var rest := SomesOrigins(xs[1..]);
      origin := Extend(xs, rest);
    }
  }

  /** The origins in `xs` from those in its tail. */
  lemma Extend<T(!new)>(xs: seq<Option<T>>, rest: seq<nat>) returns (origin: seq<nat>)
    requires xs != [] && Origins(xs[1..], Somes(xs[1..]), rest, 0)
    ensures Origins(xs, Somes(xs), origin, 0)
  {
    var ys := Somes(xs[1..]);
    var shifted := Shift(xs, ys, rest);
    if xs[0].Some? {
      assert Somes(xs) == [xs[0].value] + ys;
      origin := KeepHead(xs, ys, shifted);
    } else {
      assert Somes(xs) == ys;
      origin := SkipHead(xs, ys, shifted);
    }
  }

  /** A present head entry is the origin of the first kept value. */
  lemma KeepHead<T>(xs: seq<Option<T>>, ys: seq<T>, shifted: seq<nat>) returns (origin: seq<nat>)
    requires xs != [] && xs[0].Some? && Origins(xs, ys, shifted, 1)
    ensures Origins(xs, [xs[0].value] + ys, origin, 0)
  {
    origin := [0] + shifted;
    forall k | 0 < k < |origin|
      ensures origin[k] < |xs| && xs[origin[k]] == Some(([xs[0].value] + ys)[k])
    {
      assert origin[k] == shifted[k - 1];
    }
  }

  /** An absent head entry is the origin of nothing. */
  lemma SkipHead<T>(xs: seq<Option<T>>, ys: seq<T>, shifted: seq<nat>) returns (origin: seq<nat>)
    requires xs != [] && xs[0].None? && Origins(xs, ys, shifted, 1)
    ensures Origins(xs, ys, origin, 0)
  {
    origin := shifted;
  }

  /** The origins of the tail's values, as positions in `xs`. */
  lemma Shift<T>(xs: seq<Option<T>>, ys: seq<T>, rest: seq<nat>) returns (shifted: seq<nat>)
    requires xs != [] && Origins(xs[1..], ys, rest, 0)
    ensures Origins(xs, ys, shifted, 1)
  {
    shifted := ShiftPlaces(xs, ys, rest);
    ShiftCovers(xs, rest, shifted);
  }

  /** Each origin moved one place on still holds its value, in order. */
  lemma ShiftPlaces<T>(xs: seq<Option<T>>, ys: seq<T>, rest: seq<nat>) returns (shifted: seq<nat>)
    requires xs != [] && Origins(xs[1..], ys, rest, 0)
    ensures |shifted| == |rest| == |ys|
    ensures forall k :: 0 <= k < |shifted| ==> shifted[k] == rest[k] + 1
    ensures forall k :: 0 <= k < |shifted| ==> 1 <= shifted[k] < |xs| && xs[shifted[k]] == Some(ys[k])
    ensures forall k, l :: 0 <= k < l < |shifted| ==> shifted[k] < shifted[l]
  {
    shifted := seq(|rest|, k requires 0 <= k < |rest| => rest[k] + 1);
    forall k | 0 <= k < |shifted|
      ensures 1 <= shifted[k] < |xs| && xs[shifted[k]] == Some(ys[k])
    {
      assert xs[shifted[k]] == xs[1..][rest[k]];
    }
  }

  /** Every present entry after the head is an origin moved one place on. */
  lemma ShiftCovers<T>(xs: seq<Option<T>>, rest: seq<nat>, shifted: seq<nat>)
    requires xs != []
    requires forall i :: 0 <= i < |xs[1..]| && xs[1..][i].Some? ==> i in rest
    requires |shifted| == |rest| && forall k :: 0 <= k < |shifted| ==> shifted[k] == rest[k] + 1
    ensures forall i :: 1 <= i < |xs| && xs[i].Some? ==> i in shifted
  {
    forall i | 1 <= i < |xs| && xs[i].Some?
      ensures i in shifted
    {
      assert xs[1..][i - 1] == xs[i];
      var k :| 0 <= k < |rest| && rest[k] == i - 1;
      assert shifted[k] == i;
    }
  }
}
