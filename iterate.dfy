/// The three iteration shapes the components use: a `for...of` loop that
/// returns `false` at the first failing element, one that returns `true` at
/// the first succeeding element, and `Array.prototype.filter`. The callback
/// may throw; the first exception reached ends the iteration.
module Iterate {
  import opened JsValue

  /**
   * `for (const x of xs) { if (!test(x)) return false; } return true;`
   * The result is `true` when every element passes; otherwise it is the
   * outcome (`false` or the exception) of the first element that does not.
   */
  function AllOf<T>(xs: seq<T>, test: T -> Result<bool, Thrown>): (r: Result<bool, Thrown>)
    ensures r == Ok(true) <==> forall i :: 0 <= i < |xs| ==> test(xs[i]) == Ok(true)
    ensures r != Ok(true) ==>
      exists i :: 0 <= i < |xs| && test(xs[i]) == r && forall j :: 0 <= j < i ==> test(xs[j]) == Ok(true)
  {
    if xs == [] then Ok(true)
    else
      var first := test(xs[0]);
      if first != Ok(true) then first
      else
        var r := AllOf(xs[1..], test);
        assert forall i :: 1 <= i < |xs| ==> xs[i] == xs[1..][i - 1];
        if r != Ok(true) then
          var k :| 0 <= k < |xs| - 1 && test(xs[1..][k]) == r && forall j :: 0 <= j < k ==> test(xs[1..][j]) == Ok(true);
          assert test(xs[k + 1]) == r;
          r
        else r
  }

  /**
   * `for (const x of xs) { if (test(x)) return true; } return false;`
   * The result is `false` when every element fails; otherwise it is the
   * outcome (`true` or the exception) of the first element that does not.
   */
  function AnyOf<T>(xs: seq<T>, test: T -> Result<bool, Thrown>): (r: Result<bool, Thrown>)
    ensures r == Ok(false) <==> forall i :: 0 <= i < |xs| ==> test(xs[i]) == Ok(false)
    ensures r != Ok(false) ==>
      exists i :: 0 <= i < |xs| && test(xs[i]) == r && forall j :: 0 <= j < i ==> test(xs[j]) == Ok(false)
  {
    if xs == [] then Ok(false)
    else
      var first := test(xs[0]);
      if first != Ok(false) then first
      else
        var r := AnyOf(xs[1..], test);
        assert forall i :: 1 <= i < |xs| ==> xs[i] == xs[1..][i - 1];
        if r != Ok(false) then
          var k :| 0 <= k < |xs| - 1 && test(xs[1..][k]) == r && forall j :: 0 <= j < k ==> test(xs[1..][j]) == Ok(false);
          assert test(xs[k + 1]) == r;
          r
        else r
  }

  /**
   * `xs.filter(test)` with a callback that may throw: the elements that pass,
   * in order, or the exception of the first element whose test throws.
   */
  function Filter<T>(xs: seq<T>, test: T -> Result<bool, Thrown>): (r: Result<seq<T>, Thrown>)
    ensures r.Ok? <==> forall i :: 0 <= i < |xs| ==> test(xs[i]).Ok?
    ensures r.Err? ==>
      exists i :: 0 <= i < |xs| && test(xs[i]) == Err(r.error) && forall j :: 0 <= j < i ==> test(xs[j]).Ok?
    ensures r.Ok? ==> |r.value| <= |xs| && forall x :: x in r.value ==> x in xs && test(x) == Ok(true)
  {
    if xs == [] then Ok([])
    else
      var first := test(xs[0]);
      assert forall i :: 1 <= i < |xs| ==> xs[i] == xs[1..][i - 1];
      if first.Err? then Err(first.error)
      else
        var rest := Filter(xs[1..], test);
        if rest.Err? then
          var k :| 0 <= k < |xs| - 1 && test(xs[1..][k]) == Err(rest.error) && forall j :: 0 <= j < k ==> test(xs[1..][j]).Ok?;
          assert test(xs[k + 1]) == Err(rest.error);
          Err(rest.error)
        else if first.value then Ok([xs[0]] + rest.value)
        else Ok(rest.value)
  }

  /**
   * `idx` lists, in increasing order, the positions of `xs` whose element
   * `keep` accepts, and `r` holds exactly those elements in that order.
   */
  ghost predicate SelectsAt<T>(xs: seq<T>, r: seq<T>, idx: seq<nat>, keep: T -> bool) {
    && |idx| == |r|
    && (forall j :: 0 <= j < |idx| ==> idx[j] < |xs| && r[j] == xs[idx[j]])
    && (forall j, k :: 0 <= j < k < |idx| ==> idx[j] < idx[k])
    && (forall i :: 0 <= i < |xs| ==> (keep(xs[i]) <==> i in idx))
  }

  /** `r` is the order-preserving subsequence of `xs` whose elements `keep` accepts. */
  ghost predicate IsSelection<T>(xs: seq<T>, r: seq<T>, keep: T -> bool) {
    exists idx :: SelectsAt(xs, r, idx, keep)
  }

  function Shift(idx: seq<nat>): (r: seq<nat>)
    ensures |r| == |idx| && forall j :: 0 <= j < |idx| ==> r[j] == idx[j] + 1
  {
    seq(|idx|, j requires 0 <= j < |idx| => idx[j] + 1)
  }

  /** A position is in the shifted list exactly when the one before it is in the original. */
  lemma ShiftMembership(idx: seq<nat>, i: nat)
    ensures i in Shift(idx) <==> i > 0 && i - 1 in idx
  {
    var shifted := Shift(idx);
    if i in shifted {
      var j :| 0 <= j < |shifted| && shifted[j] == i;
      assert idx[j] == i - 1;
    }
    if i > 0 && i - 1 in idx {
      var j :| 0 <= j < |idx| && idx[j] == i - 1;
      assert shifted[j] == i;
    }
  }

  lemma SelectsConsKept<T>(x: T, tail: seq<T>, rest: seq<T>, idx: seq<nat>, keep: T -> bool)
    requires SelectsAt(tail, rest, idx, keep) && keep(x)
    ensures SelectsAt([x] + tail, [x] + rest, [0] + Shift(idx), keep)
  {
    var xs, r, shifted := [x] + tail, [x] + rest, Shift(idx);
    var idx' := [0] + shifted;
    forall j | 0 <= j < |idx'| ensures idx'[j] < |xs| && r[j] == xs[idx'[j]] {
      if j > 0 {
        assert idx'[j] == idx[j - 1] + 1 && r[j] == rest[j - 1];
      }
    }
    forall i | 0 <= i < |xs| ensures keep(xs[i]) <==> i in idx' {
      ShiftMembership(idx, i);
      assert i in idx' <==> i == 0 || i in shifted;
      if i > 0 {
        assert xs[i] == tail[i - 1];
      }
    }
  }

  lemma SelectsConsDropped<T>(x: T, tail: seq<T>, rest: seq<T>, idx: seq<nat>, keep: T -> bool)
    requires SelectsAt(tail, rest, idx, keep) && !keep(x)
    ensures SelectsAt([x] + tail, rest, Shift(idx), keep)
  {
    var xs, shifted := [x] + tail, Shift(idx);
    forall j | 0 <= j < |shifted| ensures shifted[j] < |xs| && rest[j] == xs[shifted[j]] {
      assert xs[shifted[j]] == tail[idx[j]];
    }
    forall i | 0 <= i < |xs| ensures keep(xs[i]) <==> i in shifted {
      ShiftMembership(idx, i);
      if i > 0 {
        assert xs[i] == tail[i - 1];
      }
    }
  }

  /**
   * When no callback throws, `filter` returns exactly the order-preserving
   * subsequence of the elements the callback accepts.
   */
  lemma {:induction false} FilterSelects<T>(xs: seq<T>, test: T -> Result<bool, Thrown>, keep: T -> bool)
    requires forall x :: keep(x) <==> test(x) == Ok(true)
    requires Filter(xs, test).Ok?
    ensures IsSelection(xs, Filter(xs, test).value, keep)
  {
    var r := Filter(xs, test).value;
    if xs == [] {
      assert SelectsAt(xs, r, [], keep);
    } else {
      var tail := xs[1..];
      assert xs == [xs[0]] + tail;
      assert Filter(tail, test).Ok? by {
        forall i | 0 <= i < |tail| ensures test(tail[i]).Ok? {
          assert tail[i] == xs[i + 1];
        }
      }
      var rest := Filter(tail, test).value;
      FilterSelects(tail, test, keep);
      var idx :| SelectsAt(tail, rest, idx, keep);
      if keep(xs[0]) {
        assert r == [xs[0]] + rest;
        SelectsConsKept(xs[0], tail, rest, idx, keep);
        assert SelectsAt(xs, r, [0] + Shift(idx), keep);
      } else {
        assert r == rest;
        SelectsConsDropped(xs[0], tail, rest, idx, keep);
        assert SelectsAt(xs, r, Shift(idx), keep);
      }
    }
  }

  /** A filter whose callback accepts every element keeps them all. */
  lemma {:induction false} FilterAllPass<T>(xs: seq<T>, test: T -> Result<bool, Thrown>)
    requires forall i :: 0 <= i < |xs| ==> test(xs[i]) == Ok(true)
    ensures Filter(xs, test) == Ok(xs)
  {
    if xs != [] {
      assert forall i :: 0 <= i < |xs[1..]| ==> xs[1..][i] == xs[i + 1];
      FilterAllPass(xs[1..], test);
      assert [xs[0]] + xs[1..] == xs;
    }
  }

  /** When no callback throws, the loop answers whether some element passes. */
  lemma AnyOfWithoutThrows<T>(xs: seq<T>, test: T -> Result<bool, Thrown>)
    requires forall i :: 0 <= i < |xs| ==> test(xs[i]).Ok?
    ensures AnyOf(xs, test) == Ok(exists i :: 0 <= i < |xs| && test(xs[i]) == Ok(true))
  {
    var r := AnyOf(xs, test);
    if r != Ok(false) {
      var k :| 0 <= k < |xs| && test(xs[k]) == r;
      assert r.Ok? && r.value != false;
      assert test(xs[k]) == Ok(true);
    } else {
      forall i | 0 <= i < |xs| ensures test(xs[i]) != Ok(true) {
        assert test(xs[i]) == Ok(false);
      }
    }
  }

  /**
   * Running the loop over `xs + ys` is running it over `xs` and, only when
   * that ends with `false`, going on over `ys`.
   */
  lemma {:induction false} AnyOfConcat<T>(xs: seq<T>, ys: seq<T>, test: T -> Result<bool, Thrown>)
    ensures AnyOf(xs + ys, test) == if AnyOf(xs, test) == Ok(false) then AnyOf(ys, test) else AnyOf(xs, test)
  {
    if xs == [] {
      assert xs + ys == ys;
    } else {
      var zs := xs + ys;
      assert zs[0] == xs[0];
      assert zs[1..] == xs[1..] + ys;
      AnyOfConcat(xs[1..], ys, test);
    }
  }

  /** Appending one element only matters when no earlier element has decided the answer. */
  lemma AnyOfAppendOne<T>(xs: seq<T>, x: T, test: T -> Result<bool, Thrown>)
    ensures AnyOf(xs + [x], test) == if AnyOf(xs, test) == Ok(false) then test(x) else AnyOf(xs, test)
  {
    AnyOfConcat(xs, [x], test);
    assert AnyOf([x], test) == test(x);
  }

  /**
   * When no callback throws, the answer only depends on whether some element
   * passes, so reordering the elements does not change it.
   */
  lemma AllFailTransfers<T>(xs: seq<T>, ys: seq<T>, test: T -> Result<bool, Thrown>)
    requires forall y :: y in ys ==> y in xs
    requires AnyOf(xs, test) == Ok(false)
    ensures AnyOf(ys, test) == Ok(false)
  {
    forall i | 0 <= i < |ys| ensures test(ys[i]) == Ok(false) {
      assert ys[i] in ys;
      var j :| 0 <= j < |xs| && xs[j] == ys[i];
    }
  }

  lemma AnyOfReorder<T>(xs: seq<T>, ys: seq<T>, test: T -> Result<bool, Thrown>)
    requires multiset(xs) == multiset(ys)
    requires forall x :: x in xs ==> test(x).Ok?
    ensures AnyOf(xs, test) == AnyOf(ys, test)
  {
    assert forall x :: x in xs <==> x in ys by {
      forall x ensures x in xs <==> x in ys {
        assert x in xs <==> x in multiset(xs);
        assert x in ys <==> x in multiset(ys);
      }
    }
    if AnyOf(xs, test) == Ok(false) {
      AllFailTransfers(xs, ys, test);
    } else if AnyOf(ys, test) == Ok(false) {
      AllFailTransfers(ys, xs, test);
    } else {
      var i :| 0 <= i < |xs| && test(xs[i]) == AnyOf(xs, test) && forall j :: 0 <= j < i ==> test(xs[j]) == Ok(false);
      var k :| 0 <= k < |ys| && test(ys[k]) == AnyOf(ys, test) && forall j :: 0 <= j < k ==> test(ys[j]) == Ok(false);
      assert xs[i] in xs && ys[k] in xs;
      assert test(xs[i]).Ok? && test(ys[k]).Ok?;
      assert AnyOf(xs, test).Ok? && AnyOf(xs, test).value;
      assert AnyOf(ys, test).Ok? && AnyOf(ys, test).value;
    }
  }

  /** A conjunction over a concatenation passes exactly when both halves pass. */
  lemma AllOfAppend<T>(xs: seq<T>, ys: seq<T>, test: T -> Result<bool, Thrown>)
    ensures AllOf(xs + ys, test) == Ok(true) <==> AllOf(xs, test) == Ok(true) && AllOf(ys, test) == Ok(true)
  {
    var zs := xs + ys;
    assert forall i :: 0 <= i < |xs| ==> zs[i] == xs[i];
    assert forall i :: 0 <= i < |ys| ==> zs[|xs| + i] == ys[i];
    if AllOf(xs, test) == Ok(true) && AllOf(ys, test) == Ok(true) {
      forall i | 0 <= i < |zs| ensures test(zs[i]) == Ok(true) {
        if i >= |xs| {
          assert zs[i] == ys[i - |xs|];
        }
      }
    }
  }
}
