/**
 * Image handler combinators of core/images/handlers.go: running handlers in sequence,
 * the synchronous depth-first walk of a descriptor graph, labelling the children a handler
 * returns, and the platform filters. A handler is a function from a descriptor to the
 * children it decodes and an error; the request context is not modelled.
 */
module ImageHandlers {
  import opened Errdefs
  import opened OciTypes
  import Strconv
  import StableSort

  datatype Handled = Handled(children: seq<Descriptor>, err: MaybeError)

  type Handler = Descriptor -> Handled

  // ---------------------------------------------------------------- Handlers

  /** Index of the first handler in hs that fails on desc, or |hs| when none does. */
  function FirstFailing(hs: seq<Handler>, desc: Descriptor): (k: nat)
    ensures k <= |hs|
    ensures forall j :: 0 <= j < k ==> hs[j](desc).err.None?
    ensures k < |hs| ==> hs[k](desc).err.Some?
  {
    if hs == [] then 0
    else if hs[0](desc).err.Some? then 0
    else 1 + FirstFailing(hs[1..], desc)
  }

  /** The children of all of hs on desc, concatenated in order. */
  function Gathered(hs: seq<Handler>, desc: Descriptor): seq<Descriptor>
  {
    if hs == [] then [] else Gathered(hs[..|hs| - 1], desc) + hs[|hs| - 1](desc).children
  }

  /**
   * Handlers(hs...) applied to desc: the children of the handlers before the first failing
   * one, concatenated in order; a failing handler that reports StopHandler ends the chain
   * successfully with those children, any other failure discards them and returns the error.
   */
  method RunHandlers(hs: seq<Handler>, desc: Descriptor) returns (r: Handled)
    ensures var k := FirstFailing(hs, desc);
      if k < |hs| && hs[k](desc).err != Some(StopHandler) then r == Handled([], hs[k](desc).err)
      else r == Handled(Gathered(hs[..k], desc), None)
  {
    var children := [];
    var i := 0;
    while i < |hs|
      invariant i <= FirstFailing(hs, desc)
      invariant children == Gathered(hs[..i], desc)
    {
      var h := hs[i](desc);
      if h.err.Some? {
        if h.err == Some(StopHandler) {
          break;
        }
        return Handled([], h.err);
      }
      assert hs[..i + 1][..i] == hs[..i];
      children := children + h.children;
      i := i + 1;
    }
    return Handled(children, None);
  }

  // ---------------------------------------------------------------- Walk

  datatype Walked = Walked(visited: seq<Descriptor>, err: MaybeError)

  /**
   * The descriptor graph the handler unfolds is acyclic: every child it returns ranks
   * strictly below its parent. Content addressing guarantees this for real images; it is
   * what makes the recursion of Walk terminate.
   */
  ghost predicate Acyclic(h: Handler, rank: Descriptor -> nat)
  {
    forall d, c :: c in h(d).children ==> rank(c) < rank(d)
  }

  /** A strict upper bound on the ranks of descs. */
  function RankBound(descs: seq<Descriptor>, rank: Descriptor -> nat): (b: nat)
    ensures forall i :: 0 <= i < |descs| ==> rank(descs[i]) < b
  {
    if descs == [] then 0
    else
      var rest := RankBound(descs[1..], rank);
      if rank(descs[0]) + 1 > rest then rank(descs[0]) + 1 else rest
  }

  /**
   * Walk over descs: `visited` lists the descriptors the handler was called on, in call
   * order. A descriptor whose handler reports SkipDesc is not descended into, any other
   * error ends the walk, and the children of a successful call are walked before the next
   * sibling. The error reported is never SkipDesc, and it is the error of the last call made.
   */
  function WalkFrom(h: Handler, rank: Descriptor -> nat, bound: nat, descs: seq<Descriptor>): (w: Walked)
    requires Acyclic(h, rank)
    requires forall i :: 0 <= i < |descs| ==> rank(descs[i]) < bound
    ensures w.err != Some(SkipDesc)
    ensures w.err.Some? ==> |w.visited| > 0 && h(w.visited[|w.visited| - 1]).err == w.err
    ensures |descs| > 0 ==> |w.visited| > 0 && w.visited[0] == descs[0]
    decreases bound, |descs|
  {
    if descs == [] then Walked([], None)
    else
      var d := descs[0];
      var r := h(d);
      if r.err == Some(SkipDesc) then
        var rest := WalkFrom(h, rank, bound, descs[1..]);
        Walked([d] + rest.visited, rest.err)
      else if r.err.Some? then Walked([d], r.err)
      else
        var sub := if |r.children| > 0 then WalkFrom(h, rank, rank(d), r.children) else Walked([], None);
        if sub.err.Some? then Walked([d] + sub.visited, sub.err)
        else
          var rest := WalkFrom(h, rank, bound, descs[1..]);
          Walked([d] + sub.visited + rest.visited, rest.err)
  }

  function Walk(h: Handler, rank: Descriptor -> nat, descs: seq<Descriptor>): Walked
    requires Acyclic(h, rank)
  {
    WalkFrom(h, rank, RankBound(descs, rank), descs)
  }

  /** The walk does not depend on the bound, only on the descriptors. */
  lemma {:induction false} WalkBound(h: Handler, rank: Descriptor -> nat, b1: nat, b2: nat, descs: seq<Descriptor>)
    requires Acyclic(h, rank)
    requires forall i :: 0 <= i < |descs| ==> rank(descs[i]) < b1 && rank(descs[i]) < b2
    ensures WalkFrom(h, rank, b1, descs) == WalkFrom(h, rank, b2, descs)
    decreases |descs|
  {
    if descs != [] {
      WalkBound(h, rank, b1, b2, descs[1..]);
    }
  }

  /** Walk b after wa, unless wa already failed. */
  function Then(wa: Walked, wb: Walked): Walked
  {
    if wa.err.Some? then wa else Walked(wa.visited + wb.visited, wb.err)
  }

  /** One step of the walk: d was handled with result r, its children walked to sub, its siblings to rest. */
  function Step(d: Descriptor, r: Handled, sub: Walked, rest: Walked): Walked
  {
    if r.err == Some(SkipDesc) then Walked([d] + rest.visited, rest.err)
    else if r.err.Some? then Walked([d], r.err)
    else if sub.err.Some? then Walked([d] + sub.visited, sub.err)
    else Walked([d] + sub.visited + rest.visited, rest.err)
  }

  /** The walk of the children of d. */
  function SubWalk(h: Handler, rank: Descriptor -> nat, d: Descriptor): Walked
    requires Acyclic(h, rank)
  {
    if |h(d).children| > 0 then WalkFrom(h, rank, rank(d), h(d).children) else Walked([], None)
  }

  lemma WalkUnfold(h: Handler, rank: Descriptor -> nat, bound: nat, descs: seq<Descriptor>)
    requires Acyclic(h, rank)
    requires forall i :: 0 <= i < |descs| ==> rank(descs[i]) < bound
    requires descs != []
    ensures WalkFrom(h, rank, bound, descs)
      == Step(descs[0], h(descs[0]), SubWalk(h, rank, descs[0]), WalkFrom(h, rank, bound, descs[1..]))
  {
  }

  /** A step commutes with appending a later walk. */
  lemma StepThen(d: Descriptor, r: Handled, sub: Walked, x: Walked, wb: Walked)
    ensures Step(d, r, sub, Then(x, wb)) == Then(Step(d, r, sub, x), wb)
  {
    if r.err.None? && sub.err.None? && x.err.None? {
      assert [d] + sub.visited + (x.visited + wb.visited) == ([d] + sub.visited + x.visited) + wb.visited;
    } else if r.err == Some(SkipDesc) && x.err.None? {
      assert [d] + (x.visited + wb.visited) == ([d] + x.visited) + wb.visited;
    }
  }

  /** Siblings are walked one after another: walking a + b is walking a, then, unless it failed, b. */
  lemma {:induction false} WalkAppend(h: Handler, rank: Descriptor -> nat, bound: nat, a: seq<Descriptor>, b: seq<Descriptor>)
    requires Acyclic(h, rank)
    requires forall i :: 0 <= i < |a| ==> rank(a[i]) < bound
    requires forall i :: 0 <= i < |b| ==> rank(b[i]) < bound
    ensures WalkFrom(h, rank, bound, a + b) == Then(WalkFrom(h, rank, bound, a), WalkFrom(h, rank, bound, b))
    decreases |a|
  {
    if a == [] {
      assert a + b == b;
    } else {
      var d := a[0];
      assert (a + b)[0] == d;
      assert (a + b)[1..] == a[1..] + b;
      WalkUnfold(h, rank, bound, a + b);
      WalkUnfold(h, rank, bound, a);
      WalkAppend(h, rank, bound, a[1..], b);
      StepThen(d, h(d), SubWalk(h, rank, d), WalkFrom(h, rank, bound, a[1..]), WalkFrom(h, rank, bound, b));
    }
  }

  /** A descriptor whose handler reports SkipDesc is handled once and its children are never visited. */
  lemma WalkSkipsChildren(h: Handler, rank: Descriptor -> nat, d: Descriptor)
    requires Acyclic(h, rank)
    requires h(d).err == Some(SkipDesc)
    ensures Walk(h, rank, [d]) == Walked([d], None)
  {
    var b := RankBound([d], rank);
    assert [d][1..] == [];
    assert WalkFrom(h, rank, b, [d][1..]) == Walked([], None);
  }

  /** Every descriptor visited is one of descs or a child returned by a successful earlier call. */
  ghost predicate Reached(h: Handler, descs: seq<Descriptor>, visited: seq<Descriptor>)
  {
    forall i :: 0 <= i < |visited| ==>
      visited[i] in descs ||
      exists j :: 0 <= j < i && h(visited[j]).err.None? && visited[i] in h(visited[j]).children
  }

  /**
   * Joining two walks: x reached from descs, then y reached from ys, where each of ys is
   * itself one of descs or a child of a successful call in x.
   */
  lemma ReachedJoin(h: Handler, descs: seq<Descriptor>, x: seq<Descriptor>, ys: seq<Descriptor>, y: seq<Descriptor>)
    requires Reached(h, descs, x) && Reached(h, ys, y)
    requires forall e :: e in ys ==> (e in descs ||
      exists j :: 0 <= j < |x| && h(x[j]).err.None? && e in h(x[j]).children)
    ensures Reached(h, descs, x + y)
  {
    var all := x + y;
    forall i | 0 <= i < |all|
      ensures all[i] in descs ||
        exists j :: 0 <= j < i && h(all[j]).err.None? && all[i] in h(all[j]).children
    {
      if i < |x| {
        assert all[i] == x[i];
        if x[i] !in descs {
          var j :| 0 <= j < i && h(x[j]).err.None? && x[i] in h(x[j]).children;
          assert all[j] == x[j];
        }
      } else {
        var k := i - |x|;
        assert all[i] == y[k];
        if y[k] in ys {
          if y[k] !in descs {
            var j :| 0 <= j < |x| && h(x[j]).err.None? && y[k] in h(x[j]).children;
            assert all[j] == x[j];
          }
        } else {
          var j :| 0 <= j < k && h(y[j]).err.None? && y[k] in h(y[j]).children;
          assert all[j + |x|] == y[j];
        }
      }
    }
  }

  /** The walk only visits descriptors reachable from descs through successful handler calls. */
  lemma {:induction false} WalkVisitsReachable(h: Handler, rank: Descriptor -> nat, bound: nat, descs: seq<Descriptor>)
    requires Acyclic(h, rank)
    requires forall i :: 0 <= i < |descs| ==> rank(descs[i]) < bound
    ensures Reached(h, descs, WalkFrom(h, rank, bound, descs).visited)
    decreases bound, |descs|
  {
    if descs != [] {
      var d := descs[0];
      var r := h(d);
      assert Reached(h, descs, [d]);
      if r.err == Some(SkipDesc) {
        WalkVisitsReachable(h, rank, bound, descs[1..]);
        ReachedJoin(h, descs, [d], descs[1..], WalkFrom(h, rank, bound, descs[1..]).visited);
      } else if r.err.None? {
        var sub := if |r.children| > 0 then WalkFrom(h, rank, rank(d), r.children) else Walked([], None);
        if |r.children| > 0 {
          WalkVisitsReachable(h, rank, rank(d), r.children);
        }
        assert Reached(h, r.children, sub.visited);
        assert [d][0] == d;
        ReachedJoin(h, descs, [d], r.children, sub.visited);
        if sub.err.None? {
          WalkVisitsReachable(h, rank, bound, descs[1..]);
          ReachedJoin(h, descs, [d] + sub.visited, descs[1..], WalkFrom(h, rank, bound, descs[1..]).visited);
        }
      }
    }
  }

  /** Whether some successful handler call on a visited descriptor returned children. */
  predicate FoundChildren(h: Handler, visited: seq<Descriptor>)
  {
    exists i :: 0 <= i < |visited| && h(visited[i]).err.None? && |h(visited[i]).children| > 0
  }

  /**
   * WalkNotEmpty: the walk's own error if it fails; otherwise EmptyWalk exactly when no
   * handler call returned children (all of them were filtered out).
   */
  function WalkNotEmpty(h: Handler, rank: Descriptor -> nat, descs: seq<Descriptor>): (err: MaybeError)
    requires Acyclic(h, rank)
    ensures Walk(h, rank, descs).err.Some? ==> err == Walk(h, rank, descs).err
    ensures Walk(h, rank, descs).err.None? ==>
      (err == Some(EmptyWalk) <==> !FoundChildren(h, Walk(h, rank, descs).visited)) &&
      (err.None? <==> FoundChildren(h, Walk(h, rank, descs).visited))
  {
    var w := Walk(h, rank, descs);
    if w.err.Some? then w.err
    else if FoundChildren(h, w.visited) then None
    else Some(EmptyWalk)
  }

  /** A successful walk whose first descriptor yields children is never reported empty. */
  lemma WalkNotEmptyFirstChildren(h: Handler, rank: Descriptor -> nat, descs: seq<Descriptor>)
    requires Acyclic(h, rank)
    requires |descs| > 0 && h(descs[0]).err.None? && |h(descs[0]).children| > 0
    requires Walk(h, rank, descs).err.None?
    ensures WalkNotEmpty(h, rank, descs) == None
  {
    assert Walk(h, rank, descs).visited[0] == descs[0];
  }

  // ---------------------------------------------------------------- SetChildrenMappedLabels

  /** The content record fields the labelling handler writes. */
  datatype ContentInfo = ContentInfo(digest: string, labels: map<string, string>)

  /** One call of the content manager's Update: the record and the field paths to write. */
  datatype UpdateCall = UpdateCall(info: ContentInfo, fieldpaths: seq<string>)

  /** The label key written for the idx-th use of key: the index is appended unless it is the first use of a key not ending in '.'. */
  function NamedKey(key: string, idx: nat): string
  {
    if idx > 0 || (|key| > 0 && key[|key| - 1] == '.') then key + Strconv.FormatUint(idx) else key
  }

  /** The (label key, child digest) pairs for one child. */
  function Pairs(keys: seq<string>, digest: string): (ps: seq<(string, string)>)
    ensures |ps| == |keys|
    ensures forall i :: 0 <= i < |keys| ==> ps[i] == (keys[i], digest)
  {
    seq(|keys|, i requires 0 <= i < |keys| => (keys[i], digest))
  }

  lemma PairsStep(keys: seq<string>, j: nat, digest: string)
    requires j < |keys|
    ensures Pairs(keys[..j + 1], digest) == Pairs(keys[..j], digest) + [(keys[j], digest)]
  {
  }

  lemma PairsNext(done: seq<(string, string)>, keys: seq<string>, j: nat, digest: string)
    requires j < |keys|
    ensures done + Pairs(keys[..j], digest) + [(keys[j], digest)] == done + Pairs(keys[..j + 1], digest)
  {
    PairsStep(keys, j, digest);
    assert done + Pairs(keys[..j], digest) + [(keys[j], digest)] == done + (Pairs(keys[..j], digest) + [(keys[j], digest)]);
  }

  /** Every label use in the order the handler makes them: children in order, each child's keys in order. */
  function Uses(children: seq<Descriptor>, labelMap: Descriptor -> seq<string>): seq<(string, string)>
  {
    if children == [] then []
    else Uses(children[..|children| - 1], labelMap) + Pairs(labelMap(children[|children| - 1]), children[|children| - 1].digest)
  }

  /** How many of the uses name key. */
  function Occurrences(u: seq<(string, string)>, key: string): nat
  {
    if u == [] then 0 else Occurrences(u[..|u| - 1], key) + (if u[|u| - 1].0 == key then 1 else 0)
  }

  /** The label key written for each use. */
  function GeneratedKeys(u: seq<(string, string)>): (ks: seq<string>)
    ensures |ks| == |u|
  {
    if u == [] then []
    else GeneratedKeys(u[..|u| - 1]) + [NamedKey(u[|u| - 1].0, Occurrences(u[..|u| - 1], u[|u| - 1].0))]
  }

  /** The labels map built from the uses; a later use of the same generated key overwrites. */
  function LabelsOf(u: seq<(string, string)>): map<string, string>
  {
    if u == [] then map[]
    else LabelsOf(u[..|u| - 1])[NamedKey(u[|u| - 1].0, Occurrences(u[..|u| - 1], u[|u| - 1].0)) := u[|u| - 1].1]
  }

  /** The field paths passed to Update: one "labels.<key>" per use, in order. */
  function FieldsOf(u: seq<(string, string)>): (fs: seq<string>)
    ensures |fs| == |u|
  {
    if u == [] then []
    else FieldsOf(u[..|u| - 1]) + ["labels." + NamedKey(u[|u| - 1].0, Occurrences(u[..|u| - 1], u[|u| - 1].0))]
  }

  predicate HasEmptyKey(u: seq<(string, string)>)
  {
    exists j :: 0 <= j < |u| && u[j].0 == ""
  }

  lemma {:induction false} UsesAppend(a: seq<Descriptor>, b: seq<Descriptor>, labelMap: Descriptor -> seq<string>)
    ensures Uses(a + b, labelMap) == Uses(a, labelMap) + Uses(b, labelMap)
    decreases |b|
  {
    if b == [] {
      assert a + b == a;
    } else {
      var b', last := b[..|b| - 1], b[|b| - 1];
      var p := Pairs(labelMap(last), last.digest);
      assert (a + b)[..|a + b| - 1] == a + b' && (a + b)[|a + b| - 1] == last;
      assert Uses(a + b, labelMap) == Uses(a + b', labelMap) + p;
      UsesAppend(a, b', labelMap);
      assert Uses(b, labelMap) == Uses(b', labelMap) + p;
      assert Uses(a, labelMap) + Uses(b', labelMap) + p == Uses(a, labelMap) + (Uses(b', labelMap) + p);
    }
  }

  /** The counter map agrees with the uses so far; a missing key counts zero uses. */
  ghost predicate CountsAgree(keys: map<string, nat>, done: seq<(string, string)>)
  {
    forall k :: (k in keys ==> keys[k] == Occurrences(done, k)) && (k !in keys ==> Occurrences(done, k) == 0)
  }

  /** One more use of key: the counter, the labels, the field paths and the empty-key test all advance by that use. */
  lemma UseStep(keys: map<string, nat>, done: seq<(string, string)>, key: string, digest: string)
    requires CountsAgree(keys, done)
    ensures var idx := if key in keys then keys[key] else 0;
      var next := done + [(key, digest)];
      idx == Occurrences(done, key) &&
      CountsAgree(keys[key := idx + 1], next) &&
      LabelsOf(next) == LabelsOf(done)[NamedKey(key, idx) := digest] &&
      FieldsOf(next) == FieldsOf(done) + ["labels." + NamedKey(key, idx)] &&
      (HasEmptyKey(next) <==> HasEmptyKey(done) || key == "")
  {
    var next := done + [(key, digest)];
    assert next[..|next| - 1] == done;
    assert next[|done|] == (key, digest);
    CountsStep(keys, done, key, digest);
    EmptyKeyStep(done, key, digest);
  }

  lemma CountsStep(keys: map<string, nat>, done: seq<(string, string)>, key: string, digest: string)
    requires CountsAgree(keys, done)
    ensures var idx := if key in keys then keys[key] else 0;
      CountsAgree(keys[key := idx + 1], done + [(key, digest)])
  {
    var next := done + [(key, digest)];
    assert next[..|next| - 1] == done;
    assert next[|done|] == (key, digest);
  }

  lemma EmptyKeyStep(done: seq<(string, string)>, key: string, digest: string)
    ensures HasEmptyKey(done + [(key, digest)]) <==> HasEmptyKey(done) || key == ""
  {
    var next := done + [(key, digest)];
    assert next[|done|] == (key, digest);
    if HasEmptyKey(next) && key != "" {
      var j :| 0 <= j < |next| && next[j].0 == "";
      assert done[j] == next[j];
    }
    if HasEmptyKey(done) {
      var j :| 0 <= j < |done| && done[j].0 == "";
      assert next[j] == done[j];
    }
  }

  /** A key that is never used has no occurrences; in particular, the empty key while no use names it. */
  lemma {:induction false} EmptyKeyUnused(u: seq<(string, string)>)
    requires !HasEmptyKey(u)
    ensures Occurrences(u, "") == 0
    decreases |u|
  {
    if u != [] {
      var init := u[..|u| - 1];
      assert forall j :: 0 <= j < |init| ==> init[j] == u[j];
      EmptyKeyUnused(init);
    }
  }

  /** Uses of a prefix of the children are a prefix of all uses. */
  lemma EmptyKeyUsed(children: seq<Descriptor>, labelMap: Descriptor -> seq<string>, i: nat)
    requires i <= |children| && HasEmptyKey(Uses(children[..i], labelMap))
    ensures HasEmptyKey(Uses(children, labelMap))
  {
    UsesAppend(children[..i], children[i..], labelMap);
    assert children[..i] + children[i..] == children;
    var j :| 0 <= j < |Uses(children[..i], labelMap)| && Uses(children[..i], labelMap)[j].0 == "";
    assert Uses(children, labelMap)[j] == Uses(children[..i], labelMap)[j];
  }

  /**
   * The inner loop of SetChildrenMappedLabels for one child: each of its label keys is
   * numbered, recorded with the child's digest and added to the field paths. `done` is the
   * list of uses so far; on return either the child's uses are appended or the empty key
   * was met (the Go code panics).
   */
  method LabelChild(ch: Descriptor, labelKeys: seq<string>, keys: map<string, nat>,
                    labels: map<string, string>, fields: seq<string>, ghost done: seq<(string, string)>)
    returns (keys': map<string, nat>, labels': map<string, string>, fields': seq<string>, panicked: bool)
    requires !HasEmptyKey(done) && CountsAgree(keys, done)
    requires labels == LabelsOf(done) && fields == FieldsOf(done)
    ensures var next := done + Pairs(labelKeys, ch.digest);
      if panicked then HasEmptyKey(next)
      else !HasEmptyKey(next) && CountsAgree(keys', next) && labels' == LabelsOf(next) && fields' == FieldsOf(next)
  {
    keys', labels', fields' := keys, labels, fields;
    ghost var cur := done;
    var j := 0;
    while j < |labelKeys|
      invariant ChildInv(done, labelKeys, ch.digest, j, cur, keys', labels', fields')
    {
      var key := labelKeys[j];
      ChildStep(done, labelKeys, ch.digest, j, cur, keys', labels', fields');
      var idx := if key in keys' then keys'[key] else 0;
      keys' := keys'[key := idx + 1];
      if idx == 0 && key == "" {
        // key[len(key)-1] on an empty key
        return keys', labels', fields', true;
      }
      var name := NamedKey(key, idx);
      labels' := labels'[name := ch.digest];
      fields' := fields' + ["labels." + name];
      cur := cur + [(key, ch.digest)];
      j := j + 1;
    }
    assert labelKeys[..j] == labelKeys;
    return keys', labels', fields', false;
  }

  /** The state of LabelChild after the first j label keys of the child. */
  ghost predicate ChildInv(done: seq<(string, string)>, labelKeys: seq<string>, digest: string, j: nat,
                           cur: seq<(string, string)>, keys: map<string, nat>, labels: map<string, string>, fields: seq<string>)
  {
    j <= |labelKeys| && cur == done + Pairs(labelKeys[..j], digest) &&
    !HasEmptyKey(cur) && CountsAgree(keys, cur) && labels == LabelsOf(cur) && fields == FieldsOf(cur)
  }

  /** One label key of the child: either it is the empty key, met for the first time, or the state advances by its use. */
  lemma ChildStep(done: seq<(string, string)>, labelKeys: seq<string>, digest: string, j: nat,
                  cur: seq<(string, string)>, keys: map<string, nat>, labels: map<string, string>, fields: seq<string>)
    requires ChildInv(done, labelKeys, digest, j, cur, keys, labels, fields) && j < |labelKeys|
    ensures var key := labelKeys[j];
      var idx := if key in keys then keys[key] else 0;
      (idx == 0 && key == "" ==> HasEmptyKey(done + Pairs(labelKeys, digest))) &&
      (!(idx == 0 && key == "") ==>
         ChildInv(done, labelKeys, digest, j + 1, cur + [(key, digest)], keys[key := idx + 1],
                  labels[NamedKey(key, idx) := digest], fields + ["labels." + NamedKey(key, idx)]))
  {
    var key := labelKeys[j];
    UseStep(keys, cur, key, digest);
    EmptyKeyUnused(cur);
    PairsNext(done, labelKeys, j, digest);
    var idx := if key in keys then keys[key] else 0;
    if idx == 0 && key == "" {
      PrefixEmptyKey(cur + [(key, digest)], done + Pairs(labelKeys, digest), j + 1, labelKeys, digest, done);
    }
  }

  lemma PrefixEmptyKey(pre: seq<(string, string)>, all: seq<(string, string)>, j: nat, labelKeys: seq<string>, digest: string, done: seq<(string, string)>)
    requires j <= |labelKeys|
    requires pre == done + Pairs(labelKeys[..j], digest) && all == done + Pairs(labelKeys, digest)
    requires HasEmptyKey(pre)
    ensures HasEmptyKey(all)
  {
    var k :| 0 <= k < |pre| && pre[k].0 == "";
    assert all[k] == pre[k];
  }

  /**
   * The handler wrapper of SetChildrenMappedLabels: `f` decodes the children, `labelMap`
   * names the label keys per child (ChildGCLabels when the caller passes nil) and `update`
   * is the content manager's Update. An empty label key makes the Go code index past the
   * end of the string; that panic is reported as Panic. `call` is the Update call made, if any.
   */
  method SetChildrenMappedLabels(f: Handler, labelMap: Descriptor -> seq<string>,
                                 update: UpdateCall -> MaybeError, desc: Descriptor)
    returns (r: Handled, call: Option<UpdateCall>)
    ensures f(desc).err.Some? ==> r == f(desc) && call == None
    ensures f(desc).err.None? && f(desc).children == [] ==> r == f(desc) && call == None
    ensures f(desc).err.None? && f(desc).children != [] ==>
      var u := Uses(f(desc).children, labelMap);
      if HasEmptyKey(u) then r == Handled([], Some(Panic)) && call == None
      else
        call == Some(UpdateCall(ContentInfo(desc.digest, LabelsOf(u)), FieldsOf(u))) &&
        r == (if update(call.value).Some? then Handled([], update(call.value)) else f(desc))
  {
    var res := f(desc);
    if res.err.Some? || res.children == [] {
      return res, None;
    }
    var children := res.children;
    var labels: map<string, string> := map[];
    var fields: seq<string> := [];
    var keys: map<string, nat> := map[];
    var i := 0;
    while i < |children|
      invariant i <= |children|
      invariant !HasEmptyKey(Uses(children[..i], labelMap)) && CountsAgree(keys, Uses(children[..i], labelMap))
      invariant labels == LabelsOf(Uses(children[..i], labelMap)) && fields == FieldsOf(Uses(children[..i], labelMap))
    {
      var panicked;
      UsesNext(children, labelMap, i);
      keys, labels, fields, panicked := LabelChild(children[i], labelMap(children[i]), keys, labels, fields, Uses(children[..i], labelMap));
      if panicked {
        EmptyKeyUsed(children, labelMap, i + 1);
        return Handled([], Some(Panic)), None;
      }
      i := i + 1;
    }
    assert children[..i] == children;
    var c := UpdateCall(ContentInfo(desc.digest, labels), fields);
    var err := update(c);
    if err.Some? {
      return Handled([], err), Some(c);
    }
    return res, Some(c);
  }

  lemma UsesNext(children: seq<Descriptor>, labelMap: Descriptor -> seq<string>, i: nat)
    requires i < |children|
    ensures Uses(children[..i + 1], labelMap) == Uses(children[..i], labelMap) + Pairs(labelMap(children[i]), children[i].digest)
  {
    assert children[..i + 1][..i] == children[..i];
  }

  lemma {:induction false} OccurrencesPrefix(u: seq<(string, string)>, i: nat, j: nat, key: string)
    requires i < j <= |u| && u[i].0 == key
    ensures Occurrences(u[..i], key) < Occurrences(u[..j], key)
    decreases j
  {
    assert u[..i + 1][..i] == u[..i];
    if j > i + 1 {
      OccurrencesPrefix(u, i, j - 1, key);
      assert u[..j][..j - 1] == u[..j - 1];
    }
  }

  lemma {:induction false} GeneratedKeyAt(u: seq<(string, string)>, j: nat)
    requires j < |u|
    ensures GeneratedKeys(u)[j] == NamedKey(u[j].0, Occurrences(u[..j], u[j].0))
    decreases |u|
  {
    if j < |u| - 1 {
      GeneratedKeyAt(u[..|u| - 1], j);
      assert u[..|u| - 1][..j] == u[..j];
    }
  }

  /** Appending distinct indexes to one key yields distinct label keys. */
  lemma NamedKeyInjective(key: string, i: nat, j: nat)
    requires key != "" && i != j
    ensures NamedKey(key, i) != NamedKey(key, j)
  {
    if (i > 0 && j > 0) || key[|key| - 1] == '.' {
      Strconv.FormatUintValue(i);
      Strconv.FormatUintValue(j);
      assert NamedKey(key, i)[|key|..] == Strconv.FormatUint(i);
      assert NamedKey(key, j)[|key|..] == Strconv.FormatUint(j);
    }
  }

  /** Repeated uses of one label key are written under distinct generated keys. */
  lemma RepeatedKeysDistinct(u: seq<(string, string)>, i: nat, j: nat)
    requires i < j < |u| && u[i].0 == u[j].0 && u[i].0 != ""
    ensures GeneratedKeys(u)[i] != GeneratedKeys(u)[j]
  {
    GeneratedKeyAt(u, i);
    GeneratedKeyAt(u, j);
    OccurrencesPrefix(u, i, j, u[i].0);
    NamedKeyInjective(u[i].0, Occurrences(u[..i], u[i].0), Occurrences(u[..j], u[j].0));
  }

  /** Each field path names the generated key of its use, and each written label maps a generated key to a child digest. */
  lemma {:induction false} LabelsMatchFields(u: seq<(string, string)>)
    ensures forall j :: 0 <= j < |u| ==> FieldsOf(u)[j] == "labels." + GeneratedKeys(u)[j]
    ensures forall k :: k in LabelsOf(u) <==> k in GeneratedKeys(u)
    ensures forall k :: k in LabelsOf(u) ==> exists j :: 0 <= j < |u| && GeneratedKeys(u)[j] == k && u[j].1 == LabelsOf(u)[k]
    decreases |u|
  {
    FieldsMatchKeys(u);
    LabelKeysGenerated(u);
    LabelValuesFromUses(u);
  }

  lemma {:induction false} FieldsMatchKeys(u: seq<(string, string)>)
    ensures forall j :: 0 <= j < |u| ==> FieldsOf(u)[j] == "labels." + GeneratedKeys(u)[j]
    decreases |u|
  {
    if u != [] {
      var init := u[..|u| - 1];
      FieldsMatchKeys(init);
      forall j | 0 <= j < |u|
        ensures FieldsOf(u)[j] == "labels." + GeneratedKeys(u)[j]
      {
        if j < |init| {
          assert FieldsOf(u)[j] == FieldsOf(init)[j] && GeneratedKeys(u)[j] == GeneratedKeys(init)[j];
        }
      }
    }
  }

  lemma {:induction false} LabelKeysGenerated(u: seq<(string, string)>)
    ensures forall k :: k in LabelsOf(u) <==> k in GeneratedKeys(u)
    decreases |u|
  {
    if u != [] {
      var init := u[..|u| - 1];
      LabelKeysGenerated(init);
      var g := NamedKey(u[|u| - 1].0, Occurrences(init, u[|u| - 1].0));
      assert GeneratedKeys(u) == GeneratedKeys(init) + [g];
      assert LabelsOf(u) == LabelsOf(init)[g := u[|u| - 1].1];
    }
  }

  lemma {:induction false} LabelValuesFromUses(u: seq<(string, string)>)
    ensures forall k :: k in LabelsOf(u) ==> exists j :: 0 <= j < |u| && GeneratedKeys(u)[j] == k && u[j].1 == LabelsOf(u)[k]
    decreases |u|
  {
    if u != [] {
      var init := u[..|u| - 1];
      LabelValuesFromUses(init);
      var g := NamedKey(u[|u| - 1].0, Occurrences(init, u[|u| - 1].0));
      assert GeneratedKeys(u) == GeneratedKeys(init) + [g];
      assert LabelsOf(u) == LabelsOf(init)[g := u[|u| - 1].1];
      forall k | k in LabelsOf(u)
        ensures exists j :: 0 <= j < |u| && GeneratedKeys(u)[j] == k && u[j].1 == LabelsOf(u)[k]
      {
        if k == g {
          assert GeneratedKeys(u)[|u| - 1] == k && u[|u| - 1].1 == LabelsOf(u)[k];
        } else {
          var j :| 0 <= j < |init| && GeneratedKeys(init)[j] == k && init[j].1 == LabelsOf(init)[k];
          assert GeneratedKeys(u)[j] == k && u[j].1 == LabelsOf(u)[k];
        }
      }
    }
  }

  // ---------------------------------------------------------------- FilterPlatforms and LimitManifests

  /** A platform matcher; MatchComparer adds the preference order. */
  datatype MatchComparer = MatchComparer(matches: Platform -> bool, less: (Platform, Platform) -> bool)

  /** The children FilterPlatforms keeps: those without a platform and those the matcher accepts. */
  predicate Kept(m: Platform -> bool, d: Descriptor)
  {
    d.platform.None? || m(d.platform.value)
  }

  function FilterKept(m: Platform -> bool, s: seq<Descriptor>): seq<Descriptor>
  {
    if s == [] then [] else FilterKept(m, s[..|s| - 1]) + (if Kept(m, s[|s| - 1]) then [s[|s| - 1]] else [])
  }

  /** FilterPlatforms(f, m) applied to desc; m == None is a nil matcher, which keeps every child. */
  function FilterPlatforms(f: Handler, m: Option<Platform -> bool>, desc: Descriptor): (r: Handled)
    ensures f(desc).err.Some? ==> r == f(desc)
    ensures f(desc).err.None? && m.None? ==> r == f(desc)
    ensures f(desc).err.None? && m.Some? ==> r.err.None? && forall d :: d in r.children ==> Kept(m.value, d)
  {
    var res := f(desc);
    if res.err.Some? || m.None? then res
    else
      FilteredKept(m.value, res.children);
      Handled(FilterKept(m.value, res.children), None)
  }

  lemma {:induction false} FilteredKept(m: Platform -> bool, s: seq<Descriptor>)
    ensures forall d :: d in FilterKept(m, s) ==> Kept(m, d)
    decreases |s|
  {
    if s != [] {
      FilteredKept(m, s[..|s| - 1]);
    }
  }

  /** Filtering keeps exactly the matching children, each as often as it occurs. */
  lemma {:induction false} FilterKeptCount(m: Platform -> bool, s: seq<Descriptor>)
    ensures forall d :: multiset(FilterKept(m, s))[d] == if Kept(m, d) then multiset(s)[d] else 0
    decreases |s|
  {
    if s != [] {
      FilterKeptCount(m, s[..|s| - 1]);
      assert s == s[..|s| - 1] + [s[|s| - 1]];
    }
  }

  /** Filtering a concatenation filters each part, in order. */
  lemma {:induction false} FilterKeptAppend(m: Platform -> bool, s: seq<Descriptor>, t: seq<Descriptor>)
    ensures FilterKept(m, s + t) == FilterKept(m, s) + FilterKept(m, t)
    decreases |t|
  {
    if t == [] {
      assert s + t == s;
    } else {
      var t' := t[..|t| - 1];
      FilterKeptAppend(m, s, t');
      assert (s + t)[..|s + t| - 1] == s + t';
    }
  }

  /** The order LimitManifests sorts by: children without a platform last, the others by the comparer. */
  function ManifestLess(m: MatchComparer): (less: (Descriptor, Descriptor) -> bool)
    ensures StableSort.PushesToEnd(less, (d: Descriptor) => d.platform.None?)
    ensures forall a: Descriptor, b: Descriptor :: a.platform.Some? && b.platform.Some? ==>
      less(a, b) == m.less(a.platform.value, b.platform.value)
  {
    (a: Descriptor, b: Descriptor) =>
      if a.platform.None? then false
      else if b.platform.None? then true
      else m.less(a.platform.value, b.platform.value)
  }

  /**
   * LimitManifests(f, m, n) applied to desc: the children of an index are stably sorted in
   * place by ManifestLess and, for n > 0, cut to the first n; an index without children is
   * NotFound. Other descriptors and failed calls pass through.
   */
  method LimitManifests(f: Handler, m: MatchComparer, n: int, desc: Descriptor) returns (r: Handled)
    ensures f(desc).err.Some? || !IsIndexType(desc.mediaType) ==> r == f(desc)
    ensures f(desc).err.None? && IsIndexType(desc.mediaType) ==>
      var sorted := StableSort.Sort(f(desc).children, ManifestLess(m));
      (r.err.Some? <==> n > 0 && f(desc).children == []) &&
      (r.err.Some? ==> r.err == Some(NotFound) && r.children == []) &&
      (r.err.None? ==> r.children == if n > 0 && |sorted| > n then sorted[..n] else sorted)
  {
    var res := f(desc);
    if res.err.Some? || !IsIndexType(desc.mediaType) {
      return res;
    }
    var a := new Descriptor[|res.children|](i requires 0 <= i < |res.children| => res.children[i]);
    assert a[..] == res.children;
    StableSort.SliceStable(a, ManifestLess(m));
    var children := a[..];
    if n > 0 {
      if |children| == 0 {
        return Handled(children, Some(NotFound));
      }
      if |children| > n {
        children := children[..n];
      }
    }
    return Handled(children, None);
  }

  /**
   * The order LimitManifests puts an index's manifests in is a permutation of them in which
   * every manifest without a platform comes after every manifest with one, and the
   * platform-less manifests keep their order.
   */
  lemma ManifestOrderNilLast(m: MatchComparer, children: seq<Descriptor>)
    ensures var r := StableSort.Sort(children, ManifestLess(m));
      var nilPlatform := (d: Descriptor) => d.platform.None?;
      multiset(r) == multiset(children) &&
      StableSort.AtEnd(r, nilPlatform) &&
      StableSort.Keep(r, nilPlatform) == StableSort.Keep(children, nilPlatform)
  {
    var nilPlatform := (d: Descriptor) => d.platform.None?;
    StableSort.SortPermutation(children, ManifestLess(m));
    StableSort.SortToEnd(children, ManifestLess(m), nilPlatform);
  }

  /**
   * When the comparer ranks platforms (less(p, q) == rank(p) < rank(q), ranks below bound),
   * the manifests come out ordered by rank, platform-less ones last, and manifests of equal
   * rank keep the order they have in the index.
   */
  lemma ManifestOrderByRank(m: MatchComparer, children: seq<Descriptor>, rank: Platform -> nat, bound: nat)
    requires forall p, q :: m.less(p, q) == (rank(p) < rank(q))
    requires forall p :: rank(p) < bound
    ensures var r := StableSort.Sort(children, ManifestLess(m));
      var key := (d: Descriptor) => if d.platform.None? then bound else rank(d.platform.value);
      StableSort.SortedByKey(r, key) &&
      forall k :: StableSort.WithKey(r, key, k) == StableSort.WithKey(children, key, k)
  {
    var key := (d: Descriptor) => if d.platform.None? then bound else rank(d.platform.value);
    forall a, b ensures ManifestLess(m)(a, b) == (key(a) < key(b)) {
      if a.platform.None? {
        assert !ManifestLess(m)(a, b);
        assert b.platform.Some? ==> rank(b.platform.value) < bound;
      } else if b.platform.None? {
        assert ManifestLess(m)(a, b);
        assert rank(a.platform.value) < bound;
      } else {
        assert ManifestLess(m)(a, b) == m.less(a.platform.value, b.platform.value);
      }
    }
    StableSort.SortByKey(children, ManifestLess(m), key);
  }
}
