/**
 * Two helpers of the shim package (pkg/shim/util.go): deriving the shim binary name from
 * a runtime name, and chaining ttrpc unary server interceptors.
 */
module ShimUtil {
  import opened Errdefs

  /** A string without the separator. */
  predicate NoDot(s: string)
  {
    forall k :: 0 <= k < |s| ==> s[k] != '.'
  }

  /** The index of the first dot, if any. */
  function FirstDot(s: string): (r: Option<nat>)
    ensures r.Some? ==> r.value < |s| && s[r.value] == '.' && NoDot(s[..r.value])
    ensures r.None? ==> NoDot(s)
  {
    if |s| == 0 then None
    else if s[0] == '.' then Some(0)
    else
      match FirstDot(s[1..])
      case None => None
      case Some(j) =>
        assert s[..j + 1] == [s[0]] + s[1..][..j];
        Some(j + 1)
  }

  /** strings.Split(s, "."): the pieces between dots; never empty. */
  function Split(s: string): (parts: seq<string>)
    ensures |parts| >= 1
    decreases |s|
  {
    match FirstDot(s)
    case None => [s]
    case Some(i) => [s[..i]] + Split(s[i + 1..])
  }

  function Join(parts: seq<string>): string
  {
    if |parts| == 0 then "" else if |parts| == 1 then parts[0] else parts[0] + "." + Join(parts[1..])
  }

  lemma CutAtDot(s: string, i: nat)
    requires i < |s| && s[i] == '.'
    ensures s == s[..i] + "." + s[i + 1..]
  {
    assert s[..i] + "." + s[i + 1..] == s[..i] + s[i..];
  }

  /** Splitting and joining with the separator gives back the string. */
  lemma {:induction false} SplitJoin(s: string)
    ensures Join(Split(s)) == s
    decreases |s|
  {
    match FirstDot(s)
    case None =>
    case Some(i) =>
      SplitJoin(s[i + 1..]);
      CutAtDot(s, i);
  }

  /** No part contains a dot, and there is a single part exactly when the string has no dot. */
  lemma {:induction false} SplitParts(s: string)
    ensures forall k :: 0 <= k < |Split(s)| ==> NoDot(Split(s)[k])
    ensures |Split(s)| == 1 <==> NoDot(s)
    decreases |s|
  {
    match FirstDot(s)
    case None =>
    case Some(i) =>
      SplitParts(s[i + 1..]);
      assert !NoDot(s) by { assert s[i] == '.'; }
  }

  /**
   * BinaryName: "" when the runtime has fewer than two dot-separated parts or starts with
   * a dot; otherwise `format` (the shim binary format string) applied to the last two parts.
   */
  function BinaryName(runtime: string, format: (string, string) -> string): (r: string)
    ensures NoDot(runtime) ==> r == ""
    ensures |runtime| > 0 && runtime[0] == '.' ==> r == ""
    ensures !NoDot(runtime) && runtime[0] != '.' ==>
      exists name, version :: NoDot(name) && NoDot(version) && r == format(name, version) &&
        (runtime == name + "." + version || EndsWith(runtime, "." + name + "." + version))
  {
    var parts := Split(runtime);
    FirstPartEmpty(runtime);
    SplitParts(runtime);
    if |parts| < 2 || parts[0] == "" then ""
    else
      LastTwoParts(runtime);
      assert NoDot(parts[|parts| - 2]) && NoDot(parts[|parts| - 1]);
      format(parts[|parts| - 2], parts[|parts| - 1])
  }

  /** The first part is empty exactly when the runtime is empty or starts with a dot. */
  lemma FirstPartEmpty(s: string)
    ensures Split(s)[0] == "" <==> (|s| == 0 || s[0] == '.')
  {
    match FirstDot(s)
    case None =>
    case Some(i) =>
      assert s[..i] == "" <==> i == 0;
  }

  predicate EndsWith(s: string, t: string)
  {
    |t| <= |s| && s[|s| - |t|..] == t
  }

  lemma EndsWithExtend(pre: string, rest: string, t: string)
    requires EndsWith(rest, t)
    ensures EndsWith(pre + rest, t)
  {
    assert (pre + rest)[|pre + rest| - |t|..] == rest[|rest| - |t|..];
  }

  lemma EndsWithTail(s: string, pre: string, rest: string, tail: string)
    requires s == pre + "." + rest && |tail| > 0 && tail[0] == '.'
    requires rest == tail[1..] || EndsWith(rest, tail)
    ensures EndsWith(s, tail)
  {
    assert s == pre + ("." + rest);
    if rest == tail[1..] {
      assert "." + rest == tail;
      EndsWithExtend(pre, tail, tail);
    } else {
      EndsWithExtend(pre + ".", rest, tail);
    }
  }

  /** The last two of a sequence of at least two parts. */
  function LastTwo(p: seq<string>): (string, string)
    requires |p| >= 2
  {
    (p[|p| - 2], p[|p| - 1])
  }

  lemma ConsLastTwo(x: string, q: seq<string>)
    requires |q| >= 2
    ensures LastTwo([x] + q) == LastTwo(q)
  {
  }

  /** The last two parts end the runtime name: it is exactly name.version or ends with .name.version. */
  lemma {:induction false} LastTwoParts(s: string)
    requires |Split(s)| >= 2
    ensures var (name, version) := LastTwo(Split(s));
      s == name + "." + version || EndsWith(s, "." + name + "." + version)
    decreases |s|
  {
    var i := FirstDot(s).value;
    var pre, rest := s[..i], s[i + 1..];
    assert Split(s) == [pre] + Split(rest);
    CutAtDot(s, i);
    if |Split(rest)| == 1 {
      assert LastTwo(Split(s)) == (pre, rest);
    } else {
      LastTwoParts(rest);
      ConsLastTwo(pre, Split(rest));
      var (name, version) := LastTwo(Split(rest));
      EndsWithLastTwo(s, pre, rest, name, version);
    }
  }

  /** A suffix of the part after the first dot is a suffix of the whole name. */
  lemma EndsWithLastTwo(s: string, pre: string, rest: string, name: string, version: string)
    requires s == pre + "." + rest
    requires rest == name + "." + version || EndsWith(rest, "." + name + "." + version)
    ensures EndsWith(s, "." + name + "." + version)
  {
    var tail := "." + name + "." + version;
    assert tail == "." + (name + "." + version);
    assert tail[1..] == name + "." + version;
    EndsWithTail(s, pre, rest, tail);
  }

  /** A ttrpc method: from a request (context and unmarshaller) to its response. */
  type Method<!Req, !Resp> = Req -> Resp

  /** A unary server interceptor, with the server info fixed: it may call the method it wraps. */
  type Interceptor<!Req, !Resp> = (Req, Method<Req, Resp>) -> Resp

  /** The method that calls `inner` through the interceptor `ic`. */
  function Wrap<Req, Resp>(ic: Interceptor<Req, Resp>, inner: Method<Req, Resp>): Method<Req, Resp>
  {
    q => ic(q, inner)
  }

  /** ics[0] around ics[1] around ... around ics[n-1] around the method. */
  function Nest<Req, Resp>(ics: seq<Interceptor<Req, Resp>>, m: Method<Req, Resp>): Method<Req, Resp>
  {
    if |ics| == 0 then m else Wrap(ics[0], Nest(ics[1..], m))
  }

  /** chainUnaryServerInterceptors: nil for no interceptors, otherwise the chained interceptor. */
  function ChainUnaryServerInterceptors<Req, Resp>(ics: seq<Interceptor<Req, Resp>>): (r: Option<Interceptor<Req, Resp>>)
    ensures r.None? <==> |ics| == 0
  {
    if |ics| == 0 then None else Some((q, m) => Nest(ics, m)(q))
  }

  /**
   * The chained interceptor's body: wraps the method in interceptors n-1 down to 1, then
   * calls interceptor 0 with the result, so the interceptors run from first to last.
   */
  method CallChained<Req, Resp>(ics: seq<Interceptor<Req, Resp>>, req: Req, m: Method<Req, Resp>) returns (resp: Resp)
    requires |ics| > 0
    ensures resp == Nest(ics, m)(req)
    ensures resp == ics[0](req, Nest(ics[1..], m))
  {
    var n := |ics|;
    var current := m;
    var i := n - 1;
    while i > 0
      invariant 0 <= i < n
      invariant current == Nest(ics[i + 1..], m)
    {
      assert ics[i..][1..] == ics[i + 1..];
      current := Wrap(ics[i], current);
      i := i - 1;
    }
    assert ics[0..][1..] == ics[1..];
    resp := ics[0](req, current);
  }

  /** Chaining a + b is a's chain around b's chain. */
  lemma {:induction false} NestAppend<Req, Resp>(a: seq<Interceptor<Req, Resp>>, b: seq<Interceptor<Req, Resp>>, m: Method<Req, Resp>)
    ensures Nest(a + b, m) == Nest(a, Nest(b, m))
  {
    if |a| > 0 {
      assert (a + b)[0] == a[0];
      assert (a + b)[1..] == a[1..] + b;
      NestAppend(a[1..], b, m);
      calc {
        Nest(a + b, m);
        Wrap(a[0], Nest(a[1..] + b, m));
        Wrap(a[0], Nest(a[1..], Nest(b, m)));
        Nest(a, Nest(b, m));
      }
    } else {
      assert a + b == b;
    }
  }

  /** An interceptor that records its index in the request before calling on. */
  function Recorder(k: nat): Interceptor<seq<nat>, seq<nat>>
  {
    (q: seq<nat>, inner: Method<seq<nat>, seq<nat>>) => inner(q + [k])
  }

  function Recorders(from: nat, n: nat): seq<Interceptor<seq<nat>, seq<nat>>>
    decreases n
  {
    if n == 0 then [] else [Recorder(from)] + Recorders(from + 1, n - 1)
  }

  function Range(from: nat, n: nat): seq<nat>
    decreases n
  {
    if n == 0 then [] else [from] + Range(from + 1, n - 1)
  }

  /** Interceptors 0..n-1 that each record themselves are entered in the order 0, 1, ..., n-1. */
  lemma {:induction false} ChainRunsFirstToLast(from: nat, n: nat, q: seq<nat>)
    ensures Nest(Recorders(from, n), x => x)(q) == q + Range(from, n)
    decreases n
  {
    if n > 0 {
      assert Recorders(from, n)[1..] == Recorders(from + 1, n - 1);
      ChainRunsFirstToLast(from + 1, n - 1, q + [from]);
      assert q + [from] + Range(from + 1, n - 1) == q + Range(from, n);
    }
  }
}
