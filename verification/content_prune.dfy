/**
 * `ctr content prune references` (cmd/ctr/commands/content/prune.go): the test for
 * garbage-collection labels that reference layers, and the per-record callback that
 * strips those labels from the content store.
 */
module ContentPrune {
  import opened Errdefs
  import Strconv
  import ImageHandlers

  const LayerPrefix := "containerd.io/gc.ref.content.l."
  const ContentPrefix := "containerd.io/gc.ref.content."

  predicate HasPrefix(s: string, prefix: string)
  {
    |prefix| <= |s| && s[..|prefix|] == prefix
  }

  predicate IsDigit(c: char)
  {
    '0' <= c <= '9'
  }

  /** isInteger: every character is a digit; the empty string qualifies. */
  function IsInteger(key: string): (b: bool)
    ensures b <==> forall i :: 0 <= i < |key| ==> IsDigit(key[i])
  {
    if key == [] then true
    else if !IsDigit(key[0]) then false
    else
      assert forall i :: 1 <= i < |key| ==> key[i] == key[1..][i - 1];
      IsInteger(key[1..])
  }

  /**
   * isLayerLabel: a key under the layer prefix, or a legacy key under the content prefix
   * whose remainder is an integer index other than "0" (index 0 was always the config).
   */
  function IsLayerLabel(key: string): (b: bool)
    ensures HasPrefix(key, LayerPrefix) ==> b
    ensures !HasPrefix(key, ContentPrefix) ==> !b
    ensures HasPrefix(key, ContentPrefix) && !HasPrefix(key, LayerPrefix) ==>
      (b <==> key[|ContentPrefix|..] != "0" && forall i :: |ContentPrefix| <= i < |key| ==> IsDigit(key[i]))
  {
    if HasPrefix(key, LayerPrefix) then true
    else if !HasPrefix(key, ContentPrefix) then false
    else
      var rest := key[|ContentPrefix|..];
      assert forall i :: |ContentPrefix| <= i < |key| ==> key[i] == rest[i - |ContentPrefix|];
      IsInteger(rest) && rest != "0"
  }

  /** The legacy numbered key for index n is a layer label exactly when n is not 0. */
  lemma LegacyIndexLabel(n: nat)
    ensures IsLayerLabel(ContentPrefix + Strconv.FormatUint(n)) <==> n != 0
  {
    var key := ContentPrefix + Strconv.FormatUint(n);
    assert key[..|ContentPrefix|] == ContentPrefix;
    assert key[|ContentPrefix|..] == Strconv.FormatUint(n);
    assert key[|ContentPrefix|] == Strconv.FormatUint(n)[0];
    assert !HasPrefix(key, LayerPrefix) by {
      assert LayerPrefix[|ContentPrefix|] == 'l';
      assert !IsDigit('l');
    }
    forall i | |ContentPrefix| <= i < |key| ensures IsDigit(key[i]) {
      assert key[i] == Strconv.FormatUint(n)[i - |ContentPrefix|];
    }
  }

  /** The bare content prefix, whose remainder is the empty string, counts as a layer label. */
  lemma BareContentPrefix()
    ensures IsLayerLabel(ContentPrefix)
  {
    assert ContentPrefix[..|ContentPrefix|] == ContentPrefix;
    assert !HasPrefix(ContentPrefix, LayerPrefix);
  }

  /**
   * Against the keys the image handlers write (ImageHandlers.NamedKey): every key numbered
   * from the layer reference "…content.l." is a layer label, and none numbered from the
   * manifest "…content.m." or config "…content.config" references is.
   */
  lemma HandlerKeysClassified(idx: nat)
    ensures IsLayerLabel(ImageHandlers.NamedKey(LayerPrefix, idx))
    ensures !IsLayerLabel(ImageHandlers.NamedKey(ContentPrefix + "m.", idx))
    ensures !IsLayerLabel(ImageHandlers.NamedKey(ContentPrefix + "config", idx))
  {
    var d := Strconv.FormatUint(idx);
    var l := ImageHandlers.NamedKey(LayerPrefix, idx);
    assert l[..|LayerPrefix|] == LayerPrefix;
    var m := ImageHandlers.NamedKey(ContentPrefix + "m.", idx);
    assert m[..|ContentPrefix|] == ContentPrefix;
    assert m[|ContentPrefix|] == 'm';
    var c := ImageHandlers.NamedKey(ContentPrefix + "config", idx);
    assert c[..|ContentPrefix|] == ContentPrefix;
    assert c[|ContentPrefix|] == 'c';
    assert LayerPrefix[|ContentPrefix|] == 'l';
  }

  /** The keys of a labels map that `matches` selects. */
  function MatchingKeys(labels: map<string, string>, matches: string -> bool): (ks: set<string>)
    ensures forall k :: k in ks <==> k in labels && matches(k)
  {
    set k | k in labels && matches(k)
  }

  /** The layer labels of a labels map. */
  function LayerKeys(labels: map<string, string>): (ks: set<string>)
    ensures forall k :: k in ks <==> k in labels && IsLayerLabel(k)
  {
    MatchingKeys(labels, IsLayerLabel)
  }

  const LabelsField := "labels."

  /**
   * The label loop of the content-store walk callback: every layer label is reported and,
   * unless in dry-run mode, removed from the labels and given a "labels.<key>" field path.
   * Map iteration order is unspecified in Go, so the order of the field paths is left open.
   */
  method StripLayerLabels(labels: map<string, string>, dryRun: bool)
    returns (kept: map<string, string>, fields: seq<string>)
    ensures dryRun ==> kept == labels && fields == []
    ensures !dryRun ==> kept == labels - LayerKeys(labels) && FieldsFor(fields, LayerKeys(labels))
  {
    if dryRun {
      return labels, [];
    }
    kept, fields := StripMatching(labels, IsLayerLabel);
  }

  /** The loop over the labels, for any test of which keys to strip. */
  method StripMatching(labels: map<string, string>, matches: string -> bool)
    returns (kept: map<string, string>, fields: seq<string>)
    ensures kept == labels - MatchingKeys(labels, matches) && FieldsFor(fields, MatchingKeys(labels, matches))
  {
    kept := labels;
    fields := [];
    var todo := labels.Keys;
    ghost var removed: set<string> := {};
    while todo != {}
      invariant todo <= labels.Keys
      invariant forall x :: x in removed <==> x in labels && matches(x) && x !in todo
      invariant kept == labels - removed
      invariant FieldsFor(fields, removed)
      decreases todo
    {
      var k :| k in todo;
      todo := todo - {k};
      if matches(k) {
        kept, fields := StripOne(labels, removed, kept, fields, k);
        removed := removed + {k};
      }
    }
    assert removed == MatchingKeys(labels, matches);
  }

  /** One layer label removed and given its field path. */
  method StripOne(labels: map<string, string>, ghost removed: set<string>, kept: map<string, string>, fields: seq<string>, k: string)
    returns (kept': map<string, string>, fields': seq<string>)
    requires kept == labels - removed && FieldsFor(fields, removed) && k !in removed
    ensures kept' == labels - (removed + {k}) && FieldsFor(fields', removed + {k})
  {
    FieldsStep(fields, removed, k);
    RemoveOneMore(labels, removed, k);
    fields' := fields + [LabelsField + k];
    kept' := kept - {k};
  }

  /**
   * The content-store walk callback for one record: strip the layer labels and, unless there
   * are none, call Update with the stripped record and one field path per removed label; the
   * Update error is the callback's error. In dry-run mode nothing is updated. `call` is the
   * Update call made, if any.
   */
  method PruneRecord(info: ImageHandlers.ContentInfo, dryRun: bool, update: ImageHandlers.UpdateCall -> MaybeError)
    returns (err: MaybeError, call: Option<ImageHandlers.UpdateCall>)
    ensures dryRun || LayerKeys(info.labels) == {} ==> err.None? && call.None?
    ensures !dryRun && LayerKeys(info.labels) != {} ==>
      call.Some? && err == update(call.value) &&
      call.value.info == ImageHandlers.ContentInfo(info.digest, info.labels - LayerKeys(info.labels)) &&
      FieldsFor(call.value.fieldpaths, LayerKeys(info.labels))
  {
    var labels, fields := StripLayerLabels(info.labels, dryRun);
    if |fields| == 0 {
      return None, None;
    }
    var c := ImageHandlers.UpdateCall(ImageHandlers.ContentInfo(info.digest, labels), fields);
    return update(c), Some(c);
  }

  lemma FieldPathInjective(l: string, k: string)
    ensures LabelsField + l == LabelsField + k ==> l == k
  {
    assert (LabelsField + l)[|LabelsField|..] == l;
    assert (LabelsField + k)[|LabelsField|..] == k;
  }

  lemma RemoveOneMore(m: map<string, string>, removed: set<string>, k: string)
    ensures (m - removed) - {k} == m - (removed + {k})
  {
    var a, b := (m - removed) - {k}, m - (removed + {k});
    assert a.Keys == b.Keys;
    forall l | l in a ensures a[l] == b[l] {
    }
  }

  /** fields holds one "labels.<key>" path per removed key, without repetition. */
  ghost predicate FieldsFor(fields: seq<string>, removed: set<string>)
  {
    |fields| == |removed| &&
    (forall i, j :: 0 <= i < j < |fields| ==> fields[i] != fields[j]) &&
    (forall k :: k in removed <==> LabelsField + k in fields)
  }

  lemma FieldsStep(fields: seq<string>, removed: set<string>, k: string)
    requires FieldsFor(fields, removed) && k !in removed
    ensures FieldsFor(fields + [LabelsField + k], removed + {k})
  {
    var next := fields + [LabelsField + k];
    assert LabelsField + k !in fields;
    forall l ensures l in removed + {k} <==> LabelsField + l in next {
      FieldPathInjective(l, k);
    }
  }
}
