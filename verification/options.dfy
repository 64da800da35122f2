/**
 * Go's functional-option pattern: `type Opt func(*T) error`, applied in order with
 *
 *     for _, opt := range opts { if err := opt(&x); err != nil { return err } }
 *
 * An option receives a pointer, so whatever it changed before failing stays changed;
 * `Applied` carries both the (possibly partly updated) value and the error.
 */
module Options {
  import opened Errdefs

  datatype Applied<S> = Applied(state: S, err: MaybeError)

  /** The result of applying `opts` to `s` in order, stopping at the first error. */
  function ApplyAll<S>(opts: seq<S -> Applied<S>>, s: S): Applied<S>
    decreases |opts|
  {
    if opts == [] then Applied(s, None)
    else
      var a := opts[0](s);
      if a.err.Some? then a else ApplyAll(opts[1..], a.state)
  }

  /** Index of the first option that fails when the options run from `s`, or |opts|. */
  function FirstFailure<S>(opts: seq<S -> Applied<S>>, s: S): (k: nat)
    ensures k <= |opts|
    decreases |opts|
  {
    if opts == [] then 0
    else
      var a := opts[0](s);
      if a.err.Some? then 0 else 1 + FirstFailure(opts[1..], a.state)
  }

  /** Applying two option lists one after the other is applying their concatenation. */
  lemma {:induction false} ApplyAllAppend<S>(xs: seq<S -> Applied<S>>, ys: seq<S -> Applied<S>>, s: S)
    ensures var a := ApplyAll(xs, s);
            ApplyAll(xs + ys, s) == if a.err.Some? then a else ApplyAll(ys, a.state)
    decreases |xs|
  {
    if xs != [] {
      assert (xs + ys)[0] == xs[0];
      assert (xs + ys)[1..] == xs[1..] + ys;
      var a := xs[0](s);
      if a.err.None? {
        ApplyAllAppend(xs[1..], ys, a.state);
      }
    } else {
      assert xs + ys == ys;
    }
  }

  /**
   * The error of `ApplyAll` is the error of the first failing option: the options before it
   * all succeeded, and none after it ran.
   */
  lemma {:induction false} ApplyAllStopsAtFirstError<S>(opts: seq<S -> Applied<S>>, s: S)
    ensures var k := FirstFailure(opts, s);
            var pre := ApplyAll(opts[..k], s);
            pre.err.None? &&
            (k == |opts| ==> ApplyAll(opts, s) == pre) &&
            (k < |opts| ==> opts[k](pre.state).err.Some? && ApplyAll(opts, s) == opts[k](pre.state))
    decreases |opts|
  {
    if opts != [] {
      var a := opts[0](s);
      if a.err.None? {
        ApplyAllStopsAtFirstError(opts[1..], a.state);
        var k := FirstFailure(opts, s);
        assert opts[..k][0] == opts[0];
        assert opts[..k][1..] == opts[1..][..k - 1];
      } else {
        assert opts[..0] == [];
      }
    }
  }

  /** The option loop itself, as the Go callers write it. */
  method RunOpts<S>(opts: seq<S -> Applied<S>>, s: S) returns (r: S, err: MaybeError)
    ensures Applied(r, err) == ApplyAll(opts, s)
  {
    r := s;
    var i := 0;
    while i < |opts|
      invariant 0 <= i <= |opts|
      invariant ApplyAll(opts, s) == ApplyAll(opts[i..], r)
    {
      assert opts[i..][1..] == opts[i + 1..];
      var a := opts[i](r);
      if a.err.Some? {
        return a.state, a.err;
      }
      r := a.state;
      i := i + 1;
    }
    err := None;
  }
}
