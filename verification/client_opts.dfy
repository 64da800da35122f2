/**
 * Client and remote options of the Go client (client/client_opts.go). An Opt updates the
 * client's `clientOpts` and a RemoteOpt the pull's `RemoteContext`, both through a pointer;
 * here each is a class whose methods are the options. gRPC dial options are tokens.
 */
module ClientOpts {
  import opened Errdefs
  import opened GoMaps
  import ImageHandlers

  /** A grpc.DialOption; the model only keeps track of which options were given. */
  datatype DialOption = DialOption(tag: string)

  /** The dial settings of `clientOpts`. */
  class ClientOptions {
    var dialOptions: seq<DialOption>
    var extraDialOpts: seq<DialOption>

    constructor()
      ensures dialOptions == [] && extraDialOpts == []
    {
      dialOptions := [];
      extraDialOpts := [];
    }

    /** WithDialOpts: the dial options are replaced; the extra ones are kept. */
    method WithDialOpts(opts: seq<DialOption>) returns (err: MaybeError)
      modifies this
      ensures err == None && dialOptions == opts && extraDialOpts == old(extraDialOpts)
    {
      dialOptions := opts;
      err := None;
    }

    /** WithExtraDialOpts: the options are appended after the extra options given before. */
    method WithExtraDialOpts(opts: seq<DialOption>) returns (err: MaybeError)
      modifies this
      ensures err == None && extraDialOpts == old(extraDialOpts) + opts && dialOptions == old(dialOptions)
    {
      extraDialOpts := extraDialOpts + opts;
      err := None;
    }
  }

  /** The parts of a pull's RemoteContext the options below set. */
  class RemoteContext {
    var platforms: seq<string>
    var labels: Option<map<string, string>>
    var baseHandlers: seq<ImageHandlers.Handler>
    var unpack: bool

    constructor()
      ensures platforms == [] && labels == None && baseHandlers == [] && !unpack
    {
      platforms := [];
      labels := None;
      baseHandlers := [];
      unpack := false;
    }

    /**
     * WithPlatform: the empty platform stands for the default platform string; a platform
     * already listed is not listed again.
     */
    method WithPlatform(platform: string, defaultPlatform: string) returns (err: MaybeError)
      modifies this
      ensures err == None
      ensures platforms == PlatformAdded(old(platforms), PlatformOrDefault(platform, defaultPlatform))
      ensures labels == old(labels) && baseHandlers == old(baseHandlers) && unpack == old(unpack)
    {
      var p := PlatformOrDefault(platform, defaultPlatform);
      var i := 0;
      while i < |platforms|
        invariant 0 <= i <= |platforms|
        invariant forall j :: 0 <= j < i ==> platforms[j] != p
      {
        if platforms[i] == p {
          return None;
        }
        i := i + 1;
      }
      platforms := platforms + [p];
      err := None;
    }

    /** WithPullUnpack: the image is unpacked after the pull. */
    method WithPullUnpack() returns (err: MaybeError)
      modifies this
      ensures err == None && unpack
      ensures platforms == old(platforms) && labels == old(labels) && baseHandlers == old(baseHandlers)
    {
      unpack := true;
      err := None;
    }

    /** WithPullLabel: the label map is created when nil and exactly that key is set. */
    method WithPullLabel(key: string, value: string) returns (err: MaybeError)
      modifies this
      ensures err == None && labels == Some(Contents(old(labels))[key := value])
      ensures platforms == old(platforms) && baseHandlers == old(baseHandlers) && unpack == old(unpack)
    {
      if labels.None? {
        labels := Some(map[]);
      }
      labels := Some(labels.value[key := value]);
      err := None;
    }

    /** WithPullLabels: the given labels are written over the existing ones, which are otherwise kept. */
    method WithPullLabels(pullLabels: map<string, string>) returns (err: MaybeError)
      modifies this
      ensures err == None && labels == Some(Contents(old(labels)) + pullLabels)
      ensures platforms == old(platforms) && baseHandlers == old(baseHandlers) && unpack == old(unpack)
    {
      if labels.None? {
        labels := Some(map[]);
      }
      var merged := PutAll(labels.value, pullLabels);
      labels := Some(merged);
      err := None;
    }

    /** WithImageHandler: one more base handler, called after those added before. */
    method WithImageHandler(h: ImageHandlers.Handler) returns (err: MaybeError)
      modifies this
      ensures err == None && baseHandlers == old(baseHandlers) + [h]
      ensures platforms == old(platforms) && labels == old(labels) && unpack == old(unpack)
    {
      baseHandlers := baseHandlers + [h];
      err := None;
    }
  }

  /** The platform WithPlatform records: the given one, or the default for "". */
  function PlatformOrDefault(platform: string, defaultPlatform: string): (r: string)
    ensures platform == "" ==> r == defaultPlatform
    ensures r == "" ==> defaultPlatform == ""
    ensures platform != "" ==> r == platform
  {
    if platform == "" then defaultPlatform else platform
  }

  predicate NoDuplicates(s: seq<string>)
  {
    forall i, j :: 0 <= i < j < |s| ==> s[i] != s[j]
  }

  /**
   * The platform list after WithPlatform: the old list, followed by p when p was not in it.
   * The list then holds p, and a list without duplicates stays without duplicates.
   */
  function PlatformAdded(platforms: seq<string>, p: string): (r: seq<string>)
    ensures p in r && platforms <= r && |r| <= |platforms| + 1
    ensures forall q :: q in r ==> q in platforms || q == p
    ensures NoDuplicates(platforms) ==> NoDuplicates(r)
  {
    if p in platforms then platforms else platforms + [p]
  }

  /** Asking for the same platform again changes nothing. */
  lemma PlatformAddedIdempotent(platforms: seq<string>, p: string)
    ensures PlatformAdded(PlatformAdded(platforms, p), p) == PlatformAdded(platforms, p)
  {
  }

  /**
   * Platforms requested one after another are listed each once, in the order of their first
   * request.
   */
  lemma {:induction false} PlatformsInRequestOrder(requests: seq<string>)
    ensures NoDuplicates(AddAll([], requests))
    ensures forall q :: q in AddAll([], requests) <==> q in requests
    ensures forall i, j :: 0 <= i < j < |AddAll([], requests)| ==>
      FirstIndex(requests, AddAll([], requests)[i]) < FirstIndex(requests, AddAll([], requests)[j])
    decreases |requests|
  {
    if requests != [] {
      var init, last := requests[..|requests| - 1], requests[|requests| - 1];
      PlatformsInRequestOrder(init);
      var before := AddAll([], init);
      var r := AddAll([], requests);
      assert r == PlatformAdded(before, last);
      assert requests == init + [last];
      forall q
        ensures q in r <==> q in requests
      {
        assert q in requests <==> q in init || q == last;
      }
      if last !in before {
        FirstIndexUnique(requests, last, |init|);
      }
      forall i, j | 0 <= i < j < |r|
        ensures FirstIndex(requests, r[i]) < FirstIndex(requests, r[j])
      {
        assert r[i] == before[i] && r[i] in init;
        FirstIndexAppend(init, last, r[i]);
        if j >= |before| {
          assert r[j] == last && last !in before;
        } else {
          assert r[j] == before[j] && r[j] in init;
          FirstIndexAppend(init, last, r[j]);
          assert FirstIndex(init, before[i]) < FirstIndex(init, before[j]);
        }
      }
    }
  }

  /** The position of the first occurrence of x in s. */
  function FirstIndex(s: seq<string>, x: string): (i: nat)
    requires x in s
    ensures i < |s| && s[i] == x && x !in s[..i]
  {
    if s[0] == x then 0
    else
      var i := 1 + FirstIndex(s[1..], x);
      assert s[..i] == [s[0]] + s[1..][..i - 1];
      i
  }

  lemma FirstIndexUnique(s: seq<string>, x: string, i: nat)
    requires i < |s| && s[i] == x && x !in s[..i]
    ensures FirstIndex(s, x) == i
  {
  }

  lemma FirstIndexAppend(s: seq<string>, y: string, x: string)
    requires x in s
    ensures FirstIndex(s + [y], x) == FirstIndex(s, x)
  {
    var f := FirstIndex(s, x);
    assert (s + [y])[..f] == s[..f];
    FirstIndexUnique(s + [y], x, f);
  }

  /** The list after WithPlatform for each request in turn, starting from `platforms`. */
  function AddAll(platforms: seq<string>, requests: seq<string>): seq<string>
    decreases |requests|
  {
    if requests == [] then platforms
    else PlatformAdded(AddAll(platforms, requests[..|requests| - 1]), requests[|requests| - 1])
  }
}
