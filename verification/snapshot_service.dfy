/**
 * The snapshots gRPC service (plugins/services/snapshots/service.go): choosing the
 * snapshotter by name, streaming a walk's results in blocks of 100, and the Cleanup
 * capability check. The snapshotters, the walk and the stream are abstract.
 */
module SnapshotService {
  import opened Errdefs

  /** getSnapshotter: an empty or unknown name is InvalidArgument. */
  function GetSnapshotter<S>(ss: map<string, S>, name: string): (r: Result<S>)
    ensures r.Ok? <==> name != "" && name in ss
    ensures r.Ok? ==> r.value == ss[name]
    ensures r.Err? ==> r.error == InvalidArgument
  {
    if name == "" then Err(InvalidArgument)
    else if name !in ss then Err(InvalidArgument)
    else Ok(ss[name])
  }

  const BlockSize: nat := 100

  /** The full blocks of 100 entries, in order. */
  function FullBlocks<T>(s: seq<T>): (bs: seq<seq<T>>)
    ensures |bs| == |s| / BlockSize
    ensures forall j :: 0 <= j < |bs| ==> bs[j] == s[BlockSize * j..BlockSize * j + BlockSize]
  {
    seq(|s| / BlockSize, j requires 0 <= j < |s| / BlockSize => s[BlockSize * j..BlockSize * j + BlockSize])
  }

  /** What is left after the full blocks: fewer than 100 entries. */
  function Remainder<T>(s: seq<T>): (r: seq<T>)
    ensures |r| < BlockSize
  {
    s[BlockSize * (|s| / BlockSize)..]
  }

  /** The blocks List sends for a walk that succeeds: the full blocks, then the non-empty remainder. */
  function Blocks<T>(s: seq<T>): seq<seq<T>>
  {
    FullBlocks(s) + (if |Remainder(s)| > 0 then [Remainder(s)] else [])
  }

  function Flatten<T>(bs: seq<seq<T>>): seq<T>
  {
    if |bs| == 0 then [] else Flatten(bs[..|bs| - 1]) + bs[|bs| - 1]
  }

  lemma {:induction false} FlattenFullBlocks<T>(s: seq<T>, m: nat)
    requires m <= |s| / BlockSize
    ensures Flatten(FullBlocks(s)[..m]) == s[..BlockSize * m]
  {
    if m > 0 {
      FlattenFullBlocks(s, m - 1);
      assert FullBlocks(s)[..m][..m - 1] == FullBlocks(s)[..m - 1];
      assert s[..BlockSize * m] == s[..BlockSize * (m - 1)] + s[BlockSize * (m - 1)..BlockSize * m];
    }
  }

  /** The blocks, joined, are exactly the walked entries, in order. */
  lemma BlocksFlatten<T>(s: seq<T>)
    ensures Flatten(Blocks(s)) == s
  {
    var full := FullBlocks(s);
    FlattenFullBlocks(s, |full|);
    assert full[..|full|] == full;
    if |Remainder(s)| > 0 {
      assert Blocks(s)[..|Blocks(s)| - 1] == full;
    } else {
      assert Blocks(s) == full;
    }
  }

  /** Every block but the last has exactly 100 entries, the last has 1 to 100, and an empty walk sends nothing. */
  lemma BlockSizes<T>(s: seq<T>)
    ensures |s| == 0 <==> Blocks(s) == []
    ensures forall j :: 0 <= j < |Blocks(s)| - 1 ==> |Blocks(s)[j]| == BlockSize
    ensures |Blocks(s)| > 0 ==> 1 <= |Blocks(s)[|Blocks(s)| - 1]| <= BlockSize
  {
    if |s| > 0 && |s| / BlockSize == 0 {
      assert Remainder(s) == s;
    }
  }

  /** The index of the first block whose send fails, or the number of blocks. */
  function FirstFailedSend<T>(send: (nat, seq<T>) -> MaybeError, bs: seq<seq<T>>): (k: nat)
    ensures k <= |bs|
    ensures forall j :: 0 <= j < k ==> send(j, bs[j]).None?
    ensures k < |bs| ==> send(k, bs[k]).Some?
  {
    if |bs| == 0 then 0
    else
      var k := FirstFailedSend(send, bs[..|bs| - 1]);
      if k < |bs| - 1 then k
      else if send(|bs| - 1, bs[|bs| - 1]).Some? then |bs| - 1 else |bs|
  }

  /**
   * List's outcome for the walked entries, the walk's own error and the stream's send:
   * the blocks attempted, in order, and the returned error. Full blocks are sent during the
   * walk and the first failing send stops it; a walk error skips the final flush.
   */
  function ListOutcome<T>(walked: seq<T>, walkErr: MaybeError, send: (nat, seq<T>) -> MaybeError): (seq<seq<T>>, MaybeError)
  {
    var full := FullBlocks(walked);
    var k := FirstFailedSend(send, full);
    if k < |full| then (full[..k + 1], send(k, full[k]))
    else if walkErr.Some? then (full, walkErr)
    else if |Remainder(walked)| > 0 then (full + [Remainder(walked)], send(|full|, Remainder(walked)))
    else (full, None)
  }

  /** Without send or walk errors, List sends exactly the blocks. */
  lemma ListSendsBlocks<T>(walked: seq<T>, send: (nat, seq<T>) -> MaybeError)
    requires forall j, b :: send(j, b).None?
    ensures ListOutcome(walked, None, send) == (Blocks(walked), None)
  {
    var full := FullBlocks(walked);
    var k := FirstFailedSend(send, full);
    assert send(|full|, Remainder(walked)).None?;
    if |Remainder(walked)| == 0 {
      assert Blocks(walked) == full + [] == full;
    }
  }

  /** A send failure is returned, and nothing is sent after it. */
  lemma SendFailureStops<T>(walked: seq<T>, walkErr: MaybeError, send: (nat, seq<T>) -> MaybeError)
    ensures var (sent, err) := ListOutcome(walked, walkErr, send);
      (forall j :: 0 <= j < |sent| - 1 ==> send(j, sent[j]).None?) &&
      (|sent| > 0 && send(|sent| - 1, sent[|sent| - 1]).Some? ==> err == send(|sent| - 1, sent[|sent| - 1]))
    ensures var (sent, err) := ListOutcome(walked, walkErr, send);
      forall j :: 0 <= j < |sent| ==> sent[j] == Blocks(walked)[j]
  {
  }

  /**
   * The walk callback over all walked entries: the buffer collects them and is sent and
   * emptied whenever it reaches 100; the first failing send stops the walk.
   */
  method SendFullBlocks<T>(walked: seq<T>, send: (nat, seq<T>) -> MaybeError) returns (sent: seq<seq<T>>, buffer: seq<T>, err: MaybeError)
    ensures |sent| <= |FullBlocks(walked)| && forall j :: 0 <= j < |sent| ==> sent[j] == FullBlocks(walked)[j]
    ensures err.None? ==> |sent| == |FullBlocks(walked)| && buffer == Remainder(walked) &&
                          forall j :: 0 <= j < |sent| ==> send(j, sent[j]).None?
    ensures err.Some? ==> |sent| > 0 && err == send(|sent| - 1, sent[|sent| - 1]) &&
                          forall j :: 0 <= j < |sent| - 1 ==> send(j, sent[j]).None?
  {
    ghost var full := FullBlocks(walked);
    buffer := [];
    sent := [];
    err := None;
    var i := 0;
    while i < |walked| && err.None?
      invariant 0 <= i <= |walked|
      invariant |sent| <= |full|
      invariant forall j :: 0 <= j < |sent| ==> sent[j] == full[j]
      invariant err.None? ==> forall j :: 0 <= j < |sent| ==> send(j, sent[j]).None?
      invariant err.None? ==> BlockSize * |sent| + |buffer| == i && |buffer| < BlockSize && buffer == walked[BlockSize * |sent|..i]
      invariant err.Some? ==> |sent| > 0 && err == send(|sent| - 1, sent[|sent| - 1]) &&
                              forall j :: 0 <= j < |sent| - 1 ==> send(j, sent[j]).None?
    {
      buffer := buffer + [walked[i]];
      if |buffer| >= BlockSize {
        assert |sent| < |walked| / BlockSize;
        var e := send(|sent|, buffer);
        sent := sent + [buffer];
        if e.Some? {
          err := e;
        } else {
          buffer := [];
        }
      }
      i := i + 1;
    }
    if err.None? {
      assert BlockSize * |sent| + |buffer| == |walked|;
    }
  }

  /**
   * List: the entries of the named snapshotter's walk are sent in blocks of 100 while
   * walking, and what is left is sent after a successful walk. `walk` gives the entries and
   * the walk's own error; `send` is the stream's Send for the n-th block.
   */
  method List<S, T>(ss: map<string, S>, name: string, walk: S -> (seq<T>, MaybeError), send: (nat, seq<T>) -> MaybeError)
    returns (sent: seq<seq<T>>, err: MaybeError)
    ensures GetSnapshotter(ss, name).Err? ==> sent == [] && err == Some(GetSnapshotter(ss, name).error)
    ensures GetSnapshotter(ss, name).Ok? ==>
      var (walked, walkErr) := walk(ss[name]);
      (sent, err) == ListOutcome(walked, walkErr, send)
  {
    var sn := GetSnapshotter(ss, name);
    if sn.Err? {
      return [], Some(sn.error);
    }
    var (walked, walkErr) := walk(sn.value);
    var buffer;
    sent, buffer, err := SendFullBlocks(walked, send);
    ghost var full := FullBlocks(walked);
    ghost var k := FirstFailedSend(send, full);
    if err.Some? {
      assert k == |sent| - 1;
      assert sent == full[..k + 1];
      return;
    }
    assert sent == full;
    if walkErr.Some? {
      return sent, walkErr;
    }
    if |buffer| > 0 {
      err := send(|sent|, buffer);
      sent := sent + [buffer];
    }
  }

  /** Cleanup: only a snapshotter that implements Cleaner can clean up; otherwise NotImplemented. */
  function Cleanup<S>(ss: map<string, S>, name: string, isCleaner: S -> bool, cleanup: S -> MaybeError): (err: MaybeError)
    ensures GetSnapshotter(ss, name).Err? ==> err == Some(InvalidArgument)
    ensures GetSnapshotter(ss, name).Ok? && !isCleaner(ss[name]) ==> err == Some(NotImplemented)
    ensures GetSnapshotter(ss, name).Ok? && isCleaner(ss[name]) ==> err == cleanup(ss[name])
  {
    match GetSnapshotter(ss, name)
    case Err(e) => Some(e)
    case Ok(sn) => if !isCleaner(sn) then Some(NotImplemented) else cleanup(sn)
  }
}
